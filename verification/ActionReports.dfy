/** Action states on the wire: merging them into one message, and staged evidence that rides three messages. */
module ActionReports {
  import opened Collections
  datatype ActionStatus = Running | Finished | Failed

  datatype ActionState = ActionState(id: string, kind: string, status: ActionStatus)

  predicate Terminal(s: ActionState) { s.status != Running }

  // ---- merging ------------------------------------------------------------

  function IndexOfId(s: seq<ActionState>, id: string): (i: nat)
    ensures i <= |s|
    ensures i < |s| ==> s[i].id == id
    ensures forall j | 0 <= j < i :: s[j].id != id
  {
    if s == [] || s[0].id == id then 0 else 1 + IndexOfId(s[1..], id)
  }

  /** One entry folded into the merged list: it replaces its predecessor in place, or goes to the end. */
  function MergeOne(merged: seq<ActionState>, e: ActionState): seq<ActionState> {
    var i := IndexOfId(merged, e.id);
    if i < |merged| then merged[i := e] else merged + [e]
  }

  function Merge(s: seq<ActionState>): seq<ActionState> {
    if s == [] then [] else MergeOne(Merge(s[..|s| - 1]), s[|s| - 1])
  }

  ghost predicate DistinctIds(s: seq<ActionState>) {
    forall i, j | 0 <= i < j < |s| :: s[i].id != s[j].id
  }

  /** `e` is the last word about its action in `s`. */
  ghost predicate LastWord(s: seq<ActionState>, e: ActionState) {
    exists i :: 0 <= i < |s| && s[i] == e && forall j | i < j < |s| :: s[j].id != e.id
  }

  lemma LastWordSnoc(front: seq<ActionState>, e: ActionState, x: ActionState)
    ensures LastWord(front + [e], x) <==> if x.id == e.id then x == e else LastWord(front, x)
  {
    var s := front + [e];
    if x == e { assert s[|front|] == x; }
    if LastWord(front, x) && x.id != e.id {
      var i :| 0 <= i < |front| && front[i] == x && forall j | i < j < |front| :: front[j].id != x.id;
      assert s[i] == x;
    }
    if LastWord(s, x) {
      var i :| 0 <= i < |s| && s[i] == x && forall j | i < j < |s| :: s[j].id != x.id;
      assert s[|front|] == e;
      if x.id != e.id { assert front[i] == x && forall j | i < j < |front| :: front[j] == s[j]; }
    }
  }

  lemma MergeOneReplaces(merged: seq<ActionState>, e: ActionState, x: ActionState)
    requires DistinctIds(merged)
    ensures DistinctIds(MergeOne(merged, e))
    ensures x in MergeOne(merged, e) <==> if x.id == e.id then x == e else x in merged
  {
    var k, after := IndexOfId(merged, e.id), MergeOne(merged, e);
    assert after[k] == e;
    if x in merged && x.id != e.id {
      var i :| 0 <= i < |merged| && merged[i] == x;
      assert after[i] == x;
    }
  }

  /** A merged list names each action once, and what it holds is exactly the last word about each action. */
  lemma {:induction false} MergeIsLastWord(s: seq<ActionState>)
    ensures DistinctIds(Merge(s))
    ensures forall e :: e in Merge(s) <==> LastWord(s, e)
  {
    if s != [] {
      var front, e := s[..|s| - 1], s[|s| - 1];
      MergeIsLastWord(front);
      MergeOneReplaces(Merge(front), e, e);
      forall x
        ensures x in Merge(s) <==> LastWord(s, x)
      {
        MergeOneReplaces(Merge(front), e, x);
        LastWordSnoc(front, e, x);
        assert front + [e] == s;
      }
    }
  }

  /** An insertion-ordered dictionary (`order`, `merged`) that holds the merged list `m`. */
  ghost predicate Holds(order: seq<string>, merged: map<string, ActionState>, m: seq<ActionState>) {
    && |order| == |m|
    && (forall i | 0 <= i < |m| :: order[i] == m[i].id)
    && (forall i | 0 <= i < |m| :: m[i].id in merged && merged[m[i].id] == m[i])
    && (forall id | id in merged :: IndexOfId(m, id) < |m|)
  }

  lemma HoldsReplace(order: seq<string>, merged: map<string, ActionState>, m: seq<ActionState>, e: ActionState)
    requires Holds(order, merged, m) && DistinctIds(m) && e.id in merged
    ensures Holds(order, merged[e.id := e], MergeOne(m, e))
  {
    var k := IndexOfId(m, e.id);
    var r := m[k := e];
    assert r == MergeOne(m, e);
    forall id | id in merged ensures IndexOfId(r, id) < |r| {
      var i := IndexOfId(m, id);
      assert r[i].id == id;
    }
    forall i | 0 <= i < |r| ensures r[i].id in merged && merged[e.id := e][r[i].id] == r[i] {
      assert r[i].id == m[i].id;
    }
  }

  lemma HoldsAppend(order: seq<string>, merged: map<string, ActionState>, m: seq<ActionState>, e: ActionState)
    requires Holds(order, merged, m) && e.id !in merged
    ensures Holds(order + [e.id], merged[e.id := e], MergeOne(m, e))
  {
    var r := m + [e];
    assert r == MergeOne(m, e);
    forall id | id in merged || id == e.id ensures IndexOfId(r, id) < |r| {
      assert r[if id == e.id then |m| else IndexOfId(m, id)].id == id;
    }
  }

  lemma MergeSnoc(all: seq<ActionState>, n: nat)
    requires n < |all|
    ensures Merge(all[..n + 1]) == MergeOne(Merge(all[..n]), all[n])
  {
    assert all[..n + 1][..n] == all[..n];
  }

  method MergeDictionary(all: seq<ActionState>) returns (order: seq<string>, merged: map<string, ActionState>)
    ensures Holds(order, merged, Merge(all))
  {
    order, merged := [], map[];
    assert Holds(order, merged, Merge(all[..0]));
    hide Holds, Merge, MergeOne;
    for n := 0 to |all|
      invariant Holds(order, merged, Merge(all[..n]))
    {
      var entry := all[n];
      MergeSnoc(all, n);
      MergeIsLastWord(all[..n]);
      if entry.id !in merged {
        HoldsAppend(order, merged, Merge(all[..n]), entry);
        order := order + [entry.id];
      } else {
        HoldsReplace(order, merged, Merge(all[..n]), entry);
      }
      merged := merged[entry.id := entry];
    }
    assert all[..|all|] == all;
  }

  /** The dictionary-and-order loop computes that fold. */
  method MergeActionStates(existing: seq<ActionState>, extra: seq<ActionState>) returns (out: seq<ActionState>)
    ensures out == Merge(existing + extra)
  {
    hide Merge;
    var order, merged := MergeDictionary(existing + extra);
    out := seq(|order|, i requires 0 <= i < |order| => merged[order[i]]);
  }

  // ---- staging ------------------------------------------------------------

  /** How many consecutive state messages carry a staged entry. */
  const REPEATS: nat := 3

  datatype Staged<T> = Staged(entry: T, left: nat)

  function Entries<T>(p: seq<Staged<T>>): seq<T> {
    seq(|p|, i requires 0 <= i < |p| => p[i].entry)
  }

  function Stage<T>(batch: seq<T>, left: nat): seq<Staged<T>> {
    seq(|batch|, i requires 0 <= i < |batch| => Staged(batch[i], left))
  }

  /** An entry one message later: its counter down by one, or dropped when that was the last time. */
  function AgeOne<T>(e: Staged<T>): seq<Staged<T>> { if e.left > 1 then [e.(left := e.left - 1)] else [] }

  /** What is left after one message carried everything. */
  function Age<T>(p: seq<Staged<T>>): seq<Staged<T>> {
    if p == [] then [] else AgeOne(p[0]) + Age(p[1..])
  }

  lemma {:induction false} AgeConcat<T>(p: seq<Staged<T>>, q: seq<Staged<T>>)
    ensures Age(p + q) == Age(p) + Age(q)
  {
    hide AgeOne;
    if p == [] {
      assert p + q == q;
    } else {
      AgeConcat(p[1..], q);
      assert (p + q)[0] == p[0] && (p + q)[1..] == p[1..] + q;
      Regroup(AgeOne(p[0]), Age(p[1..]), Age(q));
    }
  }

  lemma {:induction false} AgeStage<T>(batch: seq<T>, left: nat)
    ensures left <= 1 ==> Age(Stage(batch, left)) == []
    ensures left > 1 ==> Age(Stage(batch, left)) == Stage(batch, left - 1)
  {
    if batch != [] {
      AgeStage(batch[1..], left);
      assert Stage(batch, left)[1..] == Stage(batch[1..], left);
    }
  }

  /** The staging buffer after two closed batches and one still growing. */
  function Window<T>(first: seq<T>, second: seq<T>, current: seq<T>): seq<Staged<T>> {
    Stage(first, 1) + Stage(second, 2) + Stage(current, REPEATS)
  }

  lemma EntriesOfWindow<T>(first: seq<T>, second: seq<T>, current: seq<T>)
    ensures Entries(Window(first, second, current)) == first + second + current
  {
  }

  /** One message carries all three batches in staging order and retires the oldest of them. */
  lemma WindowAges<T>(first: seq<T>, second: seq<T>, current: seq<T>)
    ensures Entries(Window(first, second, current)) == first + second + current
    ensures Age(Window(first, second, current)) == Window(second, current, [])
  {
    EntriesOfWindow(first, second, current);
    AgedWindow(first, second, current);
    OldestGone(second, current);
  }

  lemma AgedWindow<T>(first: seq<T>, second: seq<T>, current: seq<T>)
    ensures Age(Window(first, second, current)) == [] + Stage(second, 1) + Stage(current, 2)
  {
    hide Age, Stage;
    AgeConcat(Stage(first, 1) + Stage(second, 2), Stage(current, REPEATS));
    AgeConcat(Stage(first, 1), Stage(second, 2));
    AgeStage(first, 1);
    AgeStage(second, 2);
    AgeStage(current, REPEATS);
  }

  lemma OldestGone<T>(second: seq<T>, current: seq<T>)
    ensures [] + Stage(second, 1) + Stage(current, 2) == Window(second, current, [])
  {
  }

  lemma WindowGrows<T>(first: seq<T>, second: seq<T>, current: seq<T>, more: seq<T>)
    ensures Window(first, second, current) + Stage(more, REPEATS) == Window(first, second, current + more)
  {
    assert Stage(current, REPEATS) + Stage(more, REPEATS) == Stage(current + more, REPEATS);
  }
}
