/**
 * keep.ts, validateTaskConditionCounters: an advisory comparison of the post-raid
 * quest condition counters with the pre-raid ones. It only reports; the list it
 * returns stands for the error lines it logs, in order.
 */
module TaskCounters {
  import opened Wrappers
  import opened Profile

  /** What one logged error line reports. */
  datatype Discrepancy =
    | MissingKey(key: string)
    | ValueMismatch(key: string, oldValue: Option<int>, newValue: int)

  /** The counter stored under `key`, like `table[key]`. */
  function Lookup(t: CounterTable, key: string): (r: Option<TaskConditionCounter>)
    ensures r.None? <==> forall i :: 0 <= i < |t| ==> t[i].key != key
    ensures r.Some? ==> exists i :: 0 <= i < |t| && t[i].key == key && t[i].counter == r.value
  {
    if t == [] then None
    else if t[0].key == key then Some(t[0].counter)
    else Lookup(t[1..], key)
  }

  /** The post-raid counter is compared at all: its id is not falsy and its value is defined. */
  predicate Compared(c: TaskConditionCounter) {
    c.id.Some? && c.id.value != "" && c.value.Some?
  }

  /** What is logged for one post-raid entry. */
  function CheckEntry(e: CounterEntry, pre: CounterTable): seq<Discrepancy> {
    if !Compared(e.counter) then []
    else match Lookup(pre, e.key)
      case None => [MissingKey(e.key)]
      case Some(c) => if c.value != e.counter.value then [ValueMismatch(e.key, c.value, e.counter.value.value)] else []
  }

  function ValidateTaskConditionCounters(post: CounterTable, pre: CounterTable): (r: seq<Discrepancy>)
    ensures |r| <= |post|
    ensures forall d :: d in r ==> exists i :: 0 <= i < |post| && post[i].key == d.key && Compared(post[i].counter)
  {
    if post == [] then []
    else CheckEntry(post[0], pre) + ValidateTaskConditionCounters(post[1..], pre)
  }

  /** A missing key is reported exactly for a compared post-raid entry whose key the pre-raid table lacks. */
  lemma {:induction false} MissingKeyReported(post: CounterTable, pre: CounterTable, key: string)
    ensures MissingKey(key) in ValidateTaskConditionCounters(post, pre) <==>
      (exists i :: 0 <= i < |post| && post[i].key == key && Compared(post[i].counter)) && Lookup(pre, key).None?
  {
    if post != [] {
      MissingKeyReported(post[1..], pre, key);
      if MissingKey(key) in ValidateTaskConditionCounters(post[1..], pre) {
        var i :| 0 <= i < |post[1..]| && post[1..][i].key == key && Compared(post[1..][i].counter);
        assert post[i + 1] == post[1..][i];
      }
      if (exists i :: 0 <= i < |post| && post[i].key == key && Compared(post[i].counter)) && Lookup(pre, key).None? {
        var i :| 0 <= i < |post| && post[i].key == key && Compared(post[i].counter);
        if i > 0 {
          assert post[1..][i - 1] == post[i];
        }
      }
    }
  }

  /**
   * A mismatch is reported exactly for a compared post-raid entry whose key the
   * pre-raid table holds with a different value; it carries both values.
   */
  lemma {:induction false} MismatchReported(post: CounterTable, pre: CounterTable, key: string, oldValue: Option<int>, newValue: int)
    ensures ValueMismatch(key, oldValue, newValue) in ValidateTaskConditionCounters(post, pre) <==>
      (exists i :: 0 <= i < |post| && post[i].key == key && Compared(post[i].counter) && post[i].counter.value == Some(newValue))
      && (exists c :: Lookup(pre, key) == Some(c) && c.value == oldValue)
      && oldValue != Some(newValue)
  {
    if post != [] {
      MismatchReported(post[1..], pre, key, oldValue, newValue);
      var d := ValueMismatch(key, oldValue, newValue);
      if d in ValidateTaskConditionCounters(post[1..], pre) {
        var i :| 0 <= i < |post[1..]| && post[1..][i].key == key && Compared(post[1..][i].counter) && post[1..][i].counter.value == Some(newValue);
        assert post[i + 1] == post[1..][i];
      }
      if exists i :: 0 <= i < |post| && post[i].key == key && Compared(post[i].counter) && post[i].counter.value == Some(newValue) {
        var i :| 0 <= i < |post| && post[i].key == key && Compared(post[i].counter) && post[i].counter.value == Some(newValue);
        if i > 0 {
          assert post[1..][i - 1] == post[i];
        }
      }
    }
  }

  /** In a table with distinct keys, looking up an entry's key finds that entry. */
  lemma {:induction false} LookupOwnEntry(t: CounterTable, i: nat)
    requires DistinctKeys(t) && i < |t|
    ensures Lookup(t, t[i].key) == Some(t[i].counter)
  {
    if i > 0 {
      assert t[0].key != t[i].key;
      assert t[1..][i - 1] == t[i];
      LookupOwnEntry(t[1..], i - 1);
    }
  }

  /** Nothing is reported when every post-raid entry is what the pre-raid table holds under its key. */
  lemma {:induction false} NoDiscrepancyWhenMatching(post: CounterTable, pre: CounterTable)
    requires forall i :: 0 <= i < |post| ==> Lookup(pre, post[i].key) == Some(post[i].counter)
    ensures ValidateTaskConditionCounters(post, pre) == []
  {
    if post != [] {
      assert Lookup(pre, post[0].key) == Some(post[0].counter);
      forall i | 0 <= i < |post[1..]|
        ensures Lookup(pre, post[1..][i].key) == Some(post[1..][i].counter)
      {
        assert post[1..][i] == post[i + 1];
      }
      NoDiscrepancyWhenMatching(post[1..], pre);
    }
  }

  /**
   * Validating a table against itself reports nothing; this is the call
   * updateProfile makes, after it has already copied the post-raid table.
   */
  lemma ValidateAfterCopyReportsNothing(t: CounterTable)
    requires DistinctKeys(t)
    ensures ValidateTaskConditionCounters(t, t) == []
  {
    forall i | 0 <= i < |t|
      ensures Lookup(t, t[i].key) == Some(t[i].counter)
    {
      LookupOwnEntry(t, i);
    }
    NoDiscrepancyWhenMatching(t, t);
  }
}
