// The run order of queued batch processes: BatchProcess.compareTo, which
// both copies of the process templates define identically. Higher priority
// runs first; among equal priorities the older batch runs first.
module BatchOrder {
  import opened Wrappers
  import opened Batches

  /**
   * A queued process: `handle` stands for the object's identity, which is
   * all that `this == other` looks at.
   */
  datatype Process = Process(handle: nat, batch: Batch)

  /** Comparing a null creation date throws a NullPointerException. */
  datatype CompareError = NullCreateDate

  /** priorityValue: a missing priority counts as MEDIUM. */
  function PriorityValue(p: Option<BatchPriority>): (v: int)
    ensures -1 <= v <= 1
    ensures v == 0 <==> p == None || p == Some(Medium)
    ensures v == 1 <==> p == Some(High)
  {
    match p
    case None => 0
    case Some(High) => 1
    case Some(Medium) => 0
    case Some(Low) => -1
  }

  /** Integer.compare, and the sign of LocalDateTime.compareTo. */
  function Compare(x: int, y: int): (c: int)
    ensures c == -1 <==> x < y
    ensures c == 0 <==> x == y
    ensures c == 1 <==> x > y
  {
    if x < y then -1 else if x == y then 0 else 1
  }

  /** compareTo: negative when `a` runs before `b`. */
  function CompareTo(a: Process, b: Process): Result<int, CompareError>
  {
    if a.handle == b.handle then Ok(0)
    else
      var byPriority := Compare(PriorityValue(b.batch.priority), PriorityValue(a.batch.priority));
      if byPriority != 0 then Ok(byPriority)
      else if a.batch.createDate.None? || b.batch.createDate.None? then Err(NullCreateDate)
      else Ok(Compare(a.batch.createDate.value, b.batch.createDate.value))
  }

  /** The intended order written as a key: priority descending, then creation date ascending. */
  predicate RunsBefore(a: Batch, b: Batch)
    requires a.createDate.Some? && b.createDate.Some?
  {
    PriorityValue(a.priority) > PriorityValue(b.priority)
    || (PriorityValue(a.priority) == PriorityValue(b.priority) && a.createDate.value < b.createDate.value)
  }

  /** For two distinct processes with dates, compareTo agrees with the key order in all three outcomes. */
  lemma CompareToMatchesKey(a: Process, b: Process)
    requires a.handle != b.handle
    requires a.batch.createDate.Some? && b.batch.createDate.Some?
    ensures CompareTo(a, b).Ok?
    ensures CompareTo(a, b).value < 0 <==> RunsBefore(a.batch, b.batch)
    ensures CompareTo(a, b).value > 0 <==> RunsBefore(b.batch, a.batch)
    ensures CompareTo(a, b).value == 0 <==>
      PriorityValue(a.batch.priority) == PriorityValue(b.batch.priority)
      && a.batch.createDate == b.batch.createDate
  {
  }

  /** A higher priority decides the order without looking at the dates, which may be null. */
  lemma HigherPriorityFirst(a: Process, b: Process)
    requires a.handle != b.handle
    requires PriorityValue(a.batch.priority) > PriorityValue(b.batch.priority)
    ensures CompareTo(a, b) == Ok(-1) && CompareTo(b, a) == Ok(1)
  {
  }

  /** Equal priorities with a null creation date on either side throw. */
  lemma NullDateThrows(a: Process, b: Process)
    requires a.handle != b.handle
    requires PriorityValue(a.batch.priority) == PriorityValue(b.batch.priority)
    ensures CompareTo(a, b).Err? <==> a.batch.createDate.None? || b.batch.createDate.None?
  {
  }

  /** compareTo is antisymmetric: swapping the arguments negates the result and keeps a throw a throw. */
  lemma CompareToAntisymmetric(a: Process, b: Process)
    ensures CompareTo(a, b).Err? <==> CompareTo(b, a).Err?
    ensures CompareTo(a, b).Ok? ==> CompareTo(b, a).value == -CompareTo(a, b).value
  {
  }

  /** Among processes with creation dates whose handles name them uniquely, compareTo is transitive. */
  lemma CompareToTransitive(a: Process, b: Process, c: Process)
    requires a.batch.createDate.Some? && b.batch.createDate.Some? && c.batch.createDate.Some?
    requires a.handle == b.handle ==> a == b
    requires b.handle == c.handle ==> b == c
    requires a.handle == c.handle ==> a == c
    requires CompareTo(a, b).Ok? && CompareTo(a, b).value <= 0
    requires CompareTo(b, c).Ok? && CompareTo(b, c).value <= 0
    ensures CompareTo(a, c).Ok? && CompareTo(a, c).value <= 0
  {
    if a.handle != c.handle {
      if a.handle != b.handle { CompareToMatchesKey(a, b); }
      if b.handle != c.handle { CompareToMatchesKey(b, c); }
      CompareToMatchesKey(a, c);
    }
  }
}
