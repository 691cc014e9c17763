/** The maintenance engine and its table: over any run with restarts they agree, up to the first colliding id. */
module FindingTable {
  import opened Options
  import opened MaintenanceFindings

  datatype Row = Row(key: Key, open: bool, createdAt: int)

  type Table = map<string, Row>

  /** An upsert or a partial update, both keyed by id; clearing a missing row changes nothing. */
  function Apply(t: Table, a: Action): Table {
    match a
    case Open(id, key, at) => t[id := Row(key, true, at)]
    case Clear(id) => if id in t then t[id := t[id].(open := false)] else t
  }

  function ApplyAll(t: Table, acts: seq<Action>): Table {
    if acts == [] then t else Apply(ApplyAll(t, acts[..|acts| - 1]), acts[|acts| - 1])
  }

  // ---- agreement ----------------------------------------------------------------------------

  predicate Known(key: Key) { key.0 != "" && key.1 in COMPONENTS }

  predicate Backed(t: Table, key: Key, f: Finding) { Known(key) && f.id in t && t[f.id] == Row(key, true, f.openedAt) }

  /** The open findings of the engine are exactly the open rows of the table. */
  ghost predicate Agrees(open: map<Key, Finding>, t: Table) {
    && (forall key | key in open :: Backed(t, key, open[key]))
    && forall id | id in t && t[id].open :: t[id].key in open && open[t[id].key].id == id
  }

  /** A component other than the verdict's holds an open finding under that id. */
  ghost predicate HeldByOther(open: map<Key, Finding>, key: Key, id: string) {
    exists other :: other in open && other != key && open[other].id == id
  }

  /** The verdict opens a finding under an id that another component holds. */
  ghost predicate Collides(hash: IdHash, open: map<Key, Finding>, v: Verdict) {
    Crossed(v) && v.key !in open && HeldByOther(open, v.key, hash(v.key, v.now))
  }

  /** The open rows as the restart query returns them: each once, in any order, with times that can be read. */
  ghost predicate Rereads(t: Table, rows: seq<OpenRow>) {
    && (forall i | 0 <= i < |rows| :: rows[i].id in t && t[rows[i].id].open && RowOf(t, rows[i].id) == rows[i])
    && forall id | id in t && t[id].open :: exists i :: 0 <= i < |rows| && rows[i].id == id
  }

  function RowOf(t: Table, id: string): OpenRow
    requires id in t
  {
    OpenRow(id, t[id].key.0, t[id].key.1, Some(t[id].createdAt))
  }

  lemma {:induction false} SeedHolds(open: map<Key, Finding>, t: Table, rows: seq<OpenRow>, now: int)
    requires Agrees(open, t)
    requires forall i | 0 <= i < |rows| :: rows[i].id in t && t[rows[i].id].open && RowOf(t, rows[i].id) == rows[i]
    ensures var seeded := Seed(map[], rows, now);
      && (forall key | key in seeded :: key in open && seeded[key] == open[key])
      && forall i | 0 <= i < |rows| :: (rows[i].robot, rows[i].component) in seeded
    decreases |rows|
  {
    if rows != [] {
      var r := rows[|rows| - 1];
      SeedHolds(open, t, rows[..|rows| - 1], now);
      assert t[r.id].key == (r.robot, r.component) && Backed(t, t[r.id].key, open[t[r.id].key]);
    }
  }

  /** A restart rebuilds exactly the findings the table agreed with. */
  lemma SeedAgrees(open: map<Key, Finding>, t: Table, rows: seq<OpenRow>, now: int)
    requires Agrees(open, t) && Rereads(t, rows)
    ensures Seed(map[], rows, now) == open
  {
    var seeded := Seed(map[], rows, now);
    SeedHolds(open, t, rows, now);
    forall key | key in open ensures key in seeded {
      assert Backed(t, key, open[key]);
      var i :| 0 <= i < |rows| && rows[i].id == open[key].id;
      assert (rows[i].robot, rows[i].component) == key;
    }
  }

  // ---- runs -----------------------------------------------------------------------------------

  /**
    The engine's life, verdict by verdict, each verdict's action written as it is made. The source writes the actions
    of a window together at its end; a crash among those writes is a restart after the last verdict whose action was
    written, since what the engine knew beyond it is lost with it.
   */
  datatype Event = Judged(v: Verdict) | Restarted(rows: seq<OpenRow>, now: int)

  datatype Site = Site(open: map<Key, Finding>, table: Table)

  ghost predicate Possible(s: Site, e: Event) {
    match e
    case Judged(v) => Known(v.key)
    case Restarted(rows, _) => Rereads(s.table, rows)
  }

  function Next(hash: IdHash, s: Site, e: Event): Site {
    match e
    case Judged(v) =>
      var (open, acts) := Transition(hash, s.open, v);
      Site(open, ApplyAll(s.table, acts))
    case Restarted(rows, now) => Site(Seed(map[], rows, now), s.table)
  }

  function RunTo(hash: IdHash, es: seq<Event>): Site {
    if es == [] then Site(map[], map[]) else Next(hash, RunTo(hash, es[..|es| - 1]), es[|es| - 1])
  }

  ghost predicate IsRun(hash: IdHash, es: seq<Event>) {
    forall n | 0 <= n < |es| :: Possible(RunTo(hash, es[..n]), es[n])
  }

  ghost predicate InAgreement(s: Site) { Agrees(s.open, s.table) }

  ghost predicate CollidesAt(hash: IdHash, es: seq<Event>, n: nat)
    requires n < |es|
  {
    es[n].Judged? && Collides(hash, RunTo(hash, es[..n]).open, es[n].v)
  }

  lemma ApplyOne(t: Table, acts: seq<Action>)
    requires |acts| <= 1
    ensures ApplyAll(t, acts) == if acts == [] then t else Apply(t, acts[0])
  {
    if acts != [] { assert acts[..0] == []; }
  }

  lemma VerdictAgrees(hash: IdHash, open: map<Key, Finding>, t: Table, v: Verdict)
    requires Agrees(open, t) && Known(v.key)
    ensures var (after, acts) := Transition(hash, open, v);
      Agrees(after, ApplyAll(t, acts)) <==> !Collides(hash, open, v)
  {
    var (after, acts) := Transition(hash, open, v);
    var u := ApplyAll(t, acts);
    ApplyOne(t, acts);
    if Collides(hash, open, v) {
      var id := hash(v.key, v.now);
      var other :| other in open && other != v.key && open[other].id == id;
      assert !Backed(u, other, after[other]);
    } else {
      forall key | key in after ensures Backed(u, key, after[key]) {
        if key in open { assert Backed(t, key, open[key]); }
        if v.key in open { assert Backed(t, v.key, open[v.key]); }
      }
    }
  }

  /** From an agreement a verdict keeps it exactly if it does not collide, and a restart always does. */
  lemma StepAgrees(hash: IdHash, s: Site, e: Event)
    requires InAgreement(s) && Possible(s, e)
    ensures InAgreement(Next(hash, s, e)) <==> !(e.Judged? && Collides(hash, s.open, e.v))
  {
    match e
    case Judged(v) => VerdictAgrees(hash, s.open, s.table, v);
    case Restarted(rows, now) => SeedAgrees(s.open, s.table, rows, now);
  }

  ghost predicate AgreesThroughout(hash: IdHash, es: seq<Event>) {
    forall n | 0 <= n <= |es| :: InAgreement(RunTo(hash, es[..n]))
  }

  ghost predicate NeverCollides(hash: IdHash, es: seq<Event>) { forall n | 0 <= n < |es| :: !CollidesAt(hash, es, n) }

  lemma AgreesSnoc(hash: IdHash, es: seq<Event>)
    requires es != []
    ensures AgreesThroughout(hash, es) <==>
      (AgreesThroughout(hash, es[..|es| - 1]) && InAgreement(RunTo(hash, es)))
  {
    hide InAgreement, RunTo;
    var before := es[..|es| - 1];
    assert es[..|es|] == es;
    forall n | 0 <= n <= |es| && AgreesThroughout(hash, before) && InAgreement(RunTo(hash, es))
      ensures InAgreement(RunTo(hash, es[..n]))
    {
      if n < |es| { assert before[..n] == es[..n]; }
    }
    forall n | 0 <= n <= |before| && AgreesThroughout(hash, es) ensures InAgreement(RunTo(hash, before[..n])) {
      assert before[..n] == es[..n];
    }
  }

  lemma CollidesSnoc(hash: IdHash, es: seq<Event>)
    requires es != []
    ensures var before := es[..|es| - 1];
      NeverCollides(hash, es) <==> (NeverCollides(hash, before) && !CollidesAt(hash, es, |es| - 1))
  {
    var before := es[..|es| - 1];
    forall n | 0 <= n < |before| ensures CollidesAt(hash, before, n) <==> CollidesAt(hash, es, n) {
      assert before[..n] == es[..n];
    }
    hide CollidesAt;
  }

  lemma IsRunSnoc(hash: IdHash, es: seq<Event>)
    requires es != [] && IsRun(hash, es)
    ensures IsRun(hash, es[..|es| - 1]) && Possible(RunTo(hash, es[..|es| - 1]), es[|es| - 1])
  {
    hide Possible, RunTo;
    var before := es[..|es| - 1];
    forall n | 0 <= n < |before| ensures Possible(RunTo(hash, before[..n]), before[n]) {
      assert before[..n] == es[..n];
    }
  }

  /**
    Over any run, restarts included, the open findings are the open rows after every event exactly if no verdict opened
    a finding under an id that another component held at that moment.
   */
  lemma {:induction false} RunAgrees(hash: IdHash, es: seq<Event>)
    requires IsRun(hash, es)
    ensures AgreesThroughout(hash, es) <==> NeverCollides(hash, es)
    ensures AgreesThroughout(hash, es) ==> InAgreement(RunTo(hash, es))
    decreases |es|
  {
    if es == [] {
      assert RunTo(hash, []) == Site(map[], map[]) && InAgreement(RunTo(hash, []));
    } else {
      hide AgreesThroughout, NeverCollides, InAgreement, IsRun, Possible, Collides;
      var s := RunTo(hash, es[..|es| - 1]);
      IsRunSnoc(hash, es);
      RunAgrees(hash, es[..|es| - 1]);
      AgreesSnoc(hash, es);
      CollidesSnoc(hash, es);
      if InAgreement(s) { StepAgrees(hash, s, es[|es| - 1]); }
    }
  }

  /** And it happens: two components that cross in turn under colliding ids leave the table wrong about the first. */
  lemma CollisionBreaksAgreement(hash: IdHash, a: Verdict, b: Verdict)
    requires Known(a.key) && Known(b.key) && a.key != b.key && Crossed(a) && Crossed(b) && a.now <= b.now
    requires hash(a.key, a.now) == hash(b.key, b.now)
    ensures IsRun(hash, [Judged(a), Judged(b)]) && !InAgreement(RunTo(hash, [Judged(a), Judged(b)]))
  {
    var es := [Judged(a), Judged(b)];
    assert es[..1] == [Judged(a)] && es[..1][..0] == [] && es[..0] == [];
    var s := RunTo(hash, es[..1]);
    assert s == Next(hash, RunTo(hash, []), Judged(a));
    assert a.key in s.open && s.open[a.key].id == hash(a.key, a.now);
    StepAgrees(hash, RunTo(hash, []), Judged(a));
    StepAgrees(hash, s, Judged(b));
  }
}
