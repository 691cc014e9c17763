/** The alert ledger of the connector: which conditions of which robot are active, and what it raises. */
module AlertDedup {
  import opened Collections
  import opened Options

  datatype ErrorEntry = ErrorEntry(errorType: string, errorLevel: string)

  datatype Message = Message(serial: string, errors: seq<ErrorEntry>, charge: Option<real>, at: real)

  /** Conditions are told apart by strings: those of errors begin with a common prefix, the battery has a fixed one. */
  datatype Condition = Condition(key: string)

  const ERROR_PREFIX := "err:"
  const LOW_BATTERY := Condition("battery:low")

  predicate IsError(c: Condition) { ERROR_PREFIX <= c.key }

  lemma BatteryIsNoError()
    ensures !IsError(LOW_BATTERY)
  {
    assert LOW_BATTERY.key[0] == 'b';
  }

  datatype Alert = Alert(src: string, condition: Condition, critical: bool, at: real)

  const BATTERY_CRIT_THRESHOLD := 10.0

  /** Battery limits; the hysteresis is added to the threshold. */
  datatype Limits = Limits(threshold: real, hysteresis: real)

  function UpperChar(c: char): char {
    if 'a' <= c <= 'z' then c - 'a' + 'A' else c
  }

  function Upper(s: string): string { seq(|s|, i requires 0 <= i < |s| => UpperChar(s[i])) }

  function TypeOf(e: ErrorEntry): string { if e.errorType == "" then "unknown" else e.errorType }

  function LevelOf(e: ErrorEntry): string { if e.errorLevel == "" then "WARNING" else Upper(e.errorLevel) }

  /** Type and level identify an error; a missing type or level has a default. */
  function KeyOf(e: ErrorEntry): Condition { Condition(ERROR_PREFIX + TypeOf(e) + ":" + LevelOf(e)) }

  predicate SameError(d: ErrorEntry, e: ErrorEntry) { TypeOf(d) == TypeOf(e) && LevelOf(d) == LevelOf(e) }

  /** The level of d is the level of e behind a colon and the rest of what the type of e has beyond the type of d. */
  ghost predicate Splits(d: ErrorEntry, e: ErrorEntry) {
    exists x :: LevelOf(d) == x + ":" + LevelOf(e) && TypeOf(e) == TypeOf(d) + ":" + x
  }

  /** The same text read with its colon further to the right. */
  lemma ColonMoves(s: string, t: string, u: string, v: string)
    requires s + ":" + t == u + ":" + v && |s| < |u|
    ensures exists x :: t == x + ":" + v && u == s + ":" + x
  {
    var whole, x := s + ":" + t, u[|s| + 1..];
    assert whole[..|u|] == u && whole[..|s|] == s && whole[|s|] == ':';
    assert u[..|s|] == whole[..|u|][..|s|] == whole[..|s|];
    assert u == s + ":" + x;
    assert whole == s + ":" + (x + ":" + v);
    assert whole[|s| + 1..] == t;
  }

  lemma KeysJoin(d: ErrorEntry, e: ErrorEntry)
    ensures KeyOf(d) == KeyOf(e) <==> TypeOf(d) + ":" + LevelOf(d) == TypeOf(e) + ":" + LevelOf(e)
  {
    var p, q := TypeOf(d) + ":" + LevelOf(d), TypeOf(e) + ":" + LevelOf(e);
    assert KeyOf(d).key == ERROR_PREFIX + p && KeyOf(e).key == ERROR_PREFIX + q;
    assert KeyOf(d).key[|ERROR_PREFIX|..] == p && KeyOf(e).key[|ERROR_PREFIX|..] == q;
  }

  /** Two readings of one text that put the colon at the same place are the same. */
  lemma ColonStays(s: string, t: string, u: string, v: string)
    requires s + ":" + t == u + ":" + v && |s| == |u|
    ensures s == u && t == v
  {
    var whole := s + ":" + t;
    assert whole[..|s|] == s && whole[..|u|] == u && whole[|s| + 1..] == t && whole[|u| + 1..] == v;
  }

  lemma SplitsMeet(d: ErrorEntry, e: ErrorEntry)
    requires Splits(d, e)
    ensures KeyOf(d) == KeyOf(e) && !SameError(d, e)
  {
    var x :| LevelOf(d) == x + ":" + LevelOf(e) && TypeOf(e) == TypeOf(d) + ":" + x;
    assert TypeOf(d) + ":" + (x + ":" + LevelOf(e)) == TypeOf(d) + ":" + x + ":" + LevelOf(e);
    KeysJoin(d, e);
    assert |TypeOf(d)| < |TypeOf(e)|;
  }

  /** Two different errors share a key, and so an alert, exactly if one is the other with its colon moved. */
  lemma KeysCollideExactly(d: ErrorEntry, e: ErrorEntry)
    ensures KeyOf(d) == KeyOf(e) && !SameError(d, e) <==> Splits(d, e) || Splits(e, d)
  {
    if Splits(d, e) { SplitsMeet(d, e); }
    if Splits(e, d) { SplitsMeet(e, d); }
    hide KeyOf, TypeOf, LevelOf;
    KeysJoin(d, e);
    if KeyOf(d) == KeyOf(e) {
      if |TypeOf(d)| < |TypeOf(e)| {
        ColonMoves(TypeOf(d), LevelOf(d), TypeOf(e), LevelOf(e));
      } else if |TypeOf(e)| < |TypeOf(d)| {
        ColonMoves(TypeOf(e), LevelOf(e), TypeOf(d), LevelOf(d));
      } else {
        ColonStays(TypeOf(d), LevelOf(d), TypeOf(e), LevelOf(e));
      }
    }
  }

  /** So the key tells errors apart as long as no level contains a colon. */
  lemma KeysTellErrorsApart(d: ErrorEntry, e: ErrorEntry)
    requires ':' !in LevelOf(d) && ':' !in LevelOf(e)
    ensures KeyOf(d) == KeyOf(e) <==> SameError(d, e)
  {
    KeysCollideExactly(d, e);
    SplitsNeedColon(d, e);
    SplitsNeedColon(e, d);
  }

  lemma SplitsNeedColon(d: ErrorEntry, e: ErrorEntry)
    ensures Splits(d, e) ==> ':' in LevelOf(d)
  {
    hide TypeOf, LevelOf;
    if x :| LevelOf(d) == x + ":" + LevelOf(e) && TypeOf(e) == TypeOf(d) + ":" + x { assert LevelOf(d)[|x|] == ':'; }
  }

  /** It happens: two different errors under one key. */
  lemma KeysCanCollide()
    ensures KeyOf(ErrorEntry("a", "B:C")) == KeyOf(ErrorEntry("a:B", "C"))
    ensures TypeOf(ErrorEntry("a", "B:C")) != TypeOf(ErrorEntry("a:B", "C"))
  {
  }

  function KeysOf(errors: seq<ErrorEntry>): set<Condition> { set e | e in errors :: KeyOf(e) }

  function Severe(e: ErrorEntry): bool { LevelOf(e) in {"FATAL", "CRITICAL", "URGENT"} }

  function ErrorAlert(m: Message, e: ErrorEntry): Alert { Alert(m.serial, KeyOf(e), Severe(e), m.at) }

  function BatteryAlert(m: Message, charge: real): Alert {
    Alert(m.serial, LOW_BATTERY, charge <= BATTERY_CRIT_THRESHOLD, m.at)
  }

  // ---- what one message does to one robot ----------------------------------------

  /** The entries whose key is neither active nor carried by an earlier entry. */
  function Rising(active: set<Condition>, errors: seq<ErrorEntry>): seq<ErrorEntry> {
    if errors == [] then []
    else
      var n := |errors| - 1;
      var before := Rising(active, errors[..n]);
      if KeyOf(errors[n]) in active + KeysOf(errors[..n]) then before else before + [errors[n]]
  }

  predicate Low(l: Limits, charge: real) { charge <= l.threshold }

  predicate Recovered(l: Limits, charge: real) { charge > l.threshold && charge > l.threshold + l.hysteresis }

  predicate LowAfter(l: Limits, was: bool, charge: Option<real>) {
    if charge.None? then was
    else if Low(l, charge.value) then true
    else if Recovered(l, charge.value) then false
    else was
  }

  function ActiveAfter(l: Limits, active: set<Condition>, m: Message): set<Condition> {
    KeysOf(m.errors) + if LowAfter(l, LOW_BATTERY in active, m.charge) then {LOW_BATTERY} else {}
  }

  function ErrorAlerts(m: Message, rising: seq<ErrorEntry>): seq<Alert> {
    seq(|rising|, i requires 0 <= i < |rising| => ErrorAlert(m, rising[i]))
  }

  function Raised(l: Limits, active: set<Condition>, m: Message): seq<Alert> {
    ErrorAlerts(m, Rising(active, m.errors))
    + if m.charge.Some? && Low(l, m.charge.value) && LOW_BATTERY !in active then [BatteryAlert(m, m.charge.value)]
      else []
  }

  lemma RisingSnoc(active: set<Condition>, errors: seq<ErrorEntry>, n: nat)
    requires n < |errors|
    ensures Rising(active, errors[..n + 1])
         == Rising(active, errors[..n]) + if KeyOf(errors[n]) in active + KeysOf(errors[..n]) then [] else [errors[n]]
  {
    assert errors[..n + 1][..n] == errors[..n];
  }

  lemma ScanStep(was: set<Condition>, errors: seq<ErrorEntry>, n: nat, mine: set<Condition>)
    requires n < |errors| && mine == was + KeysOf(errors[..n])
    ensures var key := KeyOf(errors[n]);
      && KeysOf(errors[..n + 1]) == KeysOf(errors[..n]) + {key}
      && was + KeysOf(errors[..n + 1]) == (if key in mine then mine else mine + {key})
      && Rising(was, errors[..n + 1])
         == Rising(was, errors[..n]) + if key in mine then [] else [errors[n]]
  {
    KeysSnoc(errors, n);
    RisingSnoc(was, errors, n);
  }

  lemma KeyAt(errors: seq<ErrorEntry>, i: nat)
    requires i < |errors|
    ensures KeyOf(errors[i]) in KeysOf(errors)
  {
  }

  ghost predicate DistinctlyKeyed(errors: seq<ErrorEntry>) {
    forall i, j :: 0 <= i < j < |errors| ==> KeyOf(errors[i]) != KeyOf(errors[j])
  }

  lemma DistinctlyKeyedSnoc(errors: seq<ErrorEntry>, e: ErrorEntry)
    requires DistinctlyKeyed(errors) && KeyOf(e) !in KeysOf(errors)
    ensures DistinctlyKeyed(errors + [e])
  {
    forall i | 0 <= i < |errors| ensures KeyOf(errors[i]) != KeyOf(e) { KeyAt(errors, i); }
    hide KeysOf, KeyOf;
  }

  /** The error alerts of a message are for its keys that were not active, each once. */
  lemma {:induction false} RisingIsFirstAppearance(active: set<Condition>, errors: seq<ErrorEntry>)
    ensures KeysOf(Rising(active, errors)) == KeysOf(errors) - active
    ensures DistinctlyKeyed(Rising(active, errors))
    decreases |errors|
  {
    assert KeysOf([]) == {} && DistinctlyKeyed([]);
    hide KeysOf, KeyOf, DistinctlyKeyed;
    if errors != [] {
      var n := |errors| - 1;
      var before := Rising(active, errors[..n]);
      RisingIsFirstAppearance(active, errors[..n]);
      KeysSnoc(errors, n);
      if KeyOf(errors[n]) !in active + KeysOf(errors[..n]) {
        DistinctlyKeyedSnoc(before, errors[n]);
        KeysSnoc(before + [errors[n]], |before|);
        assert (before + [errors[n]])[..|before|] == before;
      }
    }
  }

  lemma KeysSnoc(errors: seq<ErrorEntry>, n: nat)
    requires n < |errors|
    ensures KeysOf(errors[..n + 1]) == KeysOf(errors[..n]) + {KeyOf(errors[n])}
    ensures n == |errors| - 1 ==> errors[..n + 1] == errors
  {
    assert errors[..n + 1] == errors[..n] + [errors[n]];
    forall k | k in KeysOf(errors[..n + 1])
      ensures k in KeysOf(errors[..n]) + {KeyOf(errors[n])}
    {
      var e :| e in errors[..n + 1] && KeyOf(e) == k;
    }
    forall k | k in KeysOf(errors[..n]) + {KeyOf(errors[n])}
      ensures k in KeysOf(errors[..n + 1])
    {
      if k != KeyOf(errors[n]) {
        var e :| e in errors[..n] && KeyOf(e) == k;
      }
    }
  }

  // ---- the ledger ----------------------------------------------------------------------

  lemma NoBatteryKey(errors: seq<ErrorEntry>)
    ensures LOW_BATTERY !in KeysOf(errors)
    ensures OnlyKnown(KeysOf(errors))
  {
    forall k | k in KeysOf(errors) ensures IsError(k) && k != LOW_BATTERY {
      var e :| e in errors && KeyOf(e) == k;
      BatteryIsNoError();
    }
  }

  lemma NothingKnown()
    ensures OnlyKnown({})
  {
  }

  /** Error keys and the battery key, nothing else. */
  ghost predicate OnlyKnown(active: set<Condition>) { forall k | k in active :: IsError(k) || k == LOW_BATTERY }

  /** What stays active once the error keys that were not seen are retired. */
  function Retired(active: set<Condition>, seen: set<Condition>): set<Condition> {
    set k | k in active && (!IsError(k) || k in seen)
  }

  lemma RetiredKeys(was: set<Condition>, seen: set<Condition>)
    requires OnlyKnown(was) && OnlyKnown(seen)
    ensures Retired(was + seen, seen) == seen + was * {LOW_BATTERY}
  {
    BatteryIsNoError();
    hide IsError;
  }

  type Ledger = map<string, set<Condition>>

  function ActiveOf(led: Ledger, serial: string): set<Condition> { if serial in led then led[serial] else {} }

  function LedgerAfter(l: Limits, led: Ledger, m: Message): Ledger {
    led[m.serial := ActiveAfter(l, ActiveOf(led, m.serial), m)]
  }

  class AlertDeduper {
    var threshold: real
    var hysteresis: real
    var active: map<string, set<Condition>>

    constructor (threshold: real, hysteresis: real)
      ensures Valid() && Limit() == Limits(threshold, hysteresis) && active == map[]
    {
      this.threshold := threshold;
      this.hysteresis := hysteresis;
      active := map[];
    }

    ghost predicate Valid()
      reads this
    {
      forall serial | serial in active :: OnlyKnown(active[serial])
    }

    function Limit(): Limits reads this { Limits(threshold, hysteresis) }

    /** The errors of the message one by one, against the growing set of active keys. */
    static method ScanErrors(was: set<Condition>, m: Message)
      returns (rising: seq<ErrorEntry>, mine: set<Condition>, seen: set<Condition>)
      ensures rising == Rising(was, m.errors)
      ensures seen == KeysOf(m.errors) && mine == was + seen
    {
      assert KeysOf([]) == {} && Rising(was, []) == [];
      hide KeysOf, KeyOf, Rising;
      rising, mine, seen := [], was, {};
      for n := 0 to |m.errors|
        invariant seen == KeysOf(m.errors[..n]) && mine == was + seen
        invariant rising == Rising(was, m.errors[..n])
      {
        var key := KeyOf(m.errors[n]);
        ScanStep(was, m.errors, n, mine);
        seen := seen + {key};
        if key !in mine {
          mine := mine + {key};
          rising := rising + [m.errors[n]];
        }
      }
      assert m.errors[..|m.errors|] == m.errors;
    }

    /** Error alerts first; then the keys the message no longer carries are retired. */
    method ProcessErrors(m: Message) returns (alerts: seq<Alert>)
      requires Valid() && m.serial in active
      modifies this`active
      ensures Valid()
      ensures alerts == ErrorAlerts(m, Rising(old(active)[m.serial], m.errors))
      ensures active == old(active)[m.serial := KeysOf(m.errors) + old(active)[m.serial] * {LOW_BATTERY}]
    {
      NoBatteryKey(m.errors);
      hide KeysOf, ErrorAlerts, Rising, Retired;
      var rising, mine, seen := ScanErrors(active[m.serial], m);
      alerts := ErrorAlerts(m, rising);
      RetiredKeys(active[m.serial], seen);
      active := active[m.serial := Retired(mine, seen)];
    }

    /** The battery reading against the threshold, with hysteresis on the way up. */
    method ProcessBattery(m: Message, charge: real) returns (alerts: seq<Alert>)
      requires Valid() && m.serial in active
      modifies this`active
      ensures Valid()
      ensures alerts ==
        if Low(Limit(), charge) && LOW_BATTERY !in old(active)[m.serial] then [BatteryAlert(m, charge)] else []
      ensures active == old(active)[m.serial := old(active)[m.serial] - {LOW_BATTERY}
                + if LowAfter(Limit(), LOW_BATTERY in old(active)[m.serial], Some(charge)) then {LOW_BATTERY} else {}]
    {
      alerts := [];
      var mine := active[m.serial];
      if charge <= threshold {
        if LOW_BATTERY !in mine {
          alerts := [BatteryAlert(m, charge)];
        }
        mine := mine + {LOW_BATTERY};
      } else if charge > threshold + hysteresis {
        mine := mine - {LOW_BATTERY};
      }
      ghost var was := active[m.serial];
      assert mine == was - {LOW_BATTERY}
        + if LowAfter(Limit(), LOW_BATTERY in was, Some(charge)) then {LOW_BATTERY} else {};
      active := active[m.serial := mine];
    }

    /** New alert rows for one state message. */
    method Process(m: Message) returns (alerts: seq<Alert>)
      requires Valid()
      modifies this`active
      ensures Valid()
      ensures alerts == Raised(Limit(), ActiveOf(old(active), m.serial), m)
      ensures active == LedgerAfter(Limit(), old(active), m)
    {
      NoBatteryKey(m.errors);
      hide KeysOf, Rising, OnlyKnown, ErrorAlerts, BatteryAlert;
      NothingKnown();
      if m.serial !in active { active := active[m.serial := {}]; }
      ghost var was := active[m.serial];
      alerts := ProcessErrors(m);
      if m.charge.Some? {
        var low := ProcessBattery(m, m.charge.value);
        alerts := alerts + low;
      }
      assert active[m.serial] == ActiveAfter(Limit(), was, m);
    }
  }

  // ---- batches ----------------------------------------------------------------------------

  /** The translated row depends on its message alone, so the message stands for it. */
  type Rows = map<string, Message>

  /** Serials in order of first appearance. */
  function Serials(msgs: seq<Message>): seq<string> {
    if msgs == [] then []
    else
      var before := Serials(msgs[..|msgs| - 1]);
      if msgs[|msgs| - 1].serial in before then before else before + [msgs[|msgs| - 1].serial]
  }

  /** The latest message of a serial. */
  function Latest(msgs: seq<Message>, s: string): Option<Message> {
    if msgs == [] then None
    else if msgs[|msgs| - 1].serial == s then Some(msgs[|msgs| - 1])
    else Latest(msgs[..|msgs| - 1], s)
  }

  ghost predicate LastWriteWins(rows: Rows, msgs: seq<Message>) {
    forall s :: (s in rows <==> Latest(msgs, s).Some?) && (s in rows ==> Latest(msgs, s) == Some(rows[s]))
  }

  /** The ledger and the alerts after a list of messages under fixed limits. */
  ghost function LedgerAfterAll(l: Limits, led: Ledger, msgs: seq<Message>): Ledger {
    if msgs == [] then led
    else LedgerAfter(l, LedgerAfterAll(l, led, msgs[..|msgs| - 1]), msgs[|msgs| - 1])
  }

  ghost function RaisedByAll(l: Limits, led: Ledger, msgs: seq<Message>): seq<Alert> {
    if msgs == [] then []
    else
      var n := |msgs| - 1;
      RaisedByAll(l, led, msgs[..n]) + Raised(l, ActiveOf(LedgerAfterAll(l, led, msgs[..n]), msgs[n].serial), msgs[n])
  }

  lemma BatchSnoc(l: Limits, led: Ledger, msgs: seq<Message>, n: nat)
    requires n < |msgs|
    ensures var before := LedgerAfterAll(l, led, msgs[..n]);
      && LedgerAfterAll(l, led, msgs[..n + 1]) == LedgerAfter(l, before, msgs[n])
      && RaisedByAll(l, led, msgs[..n + 1])
         == RaisedByAll(l, led, msgs[..n]) + Raised(l, ActiveOf(before, msgs[n].serial), msgs[n])
    ensures Serials(msgs[..n + 1])
         == Serials(msgs[..n]) + if msgs[n].serial in Serials(msgs[..n]) then [] else [msgs[n].serial]
  {
    hide LedgerAfter, Raised, ActiveOf;
    assert msgs[..n + 1][..n] == msgs[..n];
  }

  lemma RowsSnoc(rows: Rows, msgs: seq<Message>, n: nat)
    requires n < |msgs| && LastWriteWins(rows, msgs[..n])
    ensures LastWriteWins(rows[msgs[n].serial := msgs[n]], msgs[..n + 1])
  {
    assert msgs[..n + 1][..n] == msgs[..n];
  }

  ghost predicate FirstBad(msgs: seq<Message>, n: nat) {
    n <= |msgs| && (forall i :: 0 <= i < n ==> msgs[i].serial != "") && (n < |msgs| ==> msgs[n].serial == "")
  }

  class Translator {
    const deduper: AlertDeduper

    constructor (deduper: AlertDeduper)
      ensures this.deduper == deduper
    {
      this.deduper := deduper;
    }

    /**
      A batch: one row per serial, the last message winning, and all alerts in order. A message without a serial
      number aborts the batch; the ledger then keeps what the messages before it did, and their alerts are dropped.
     */
    method FeedMany(msgs: seq<Message>) returns (batch: Option<(seq<string>, Rows, seq<Alert>)>, ghost fed: nat)
      requires deduper.Valid()
      modifies deduper`active
      ensures deduper.Valid()
      ensures FirstBad(msgs, fed) && (batch.Some? <==> fed == |msgs|)
      ensures deduper.active == LedgerAfterAll(deduper.Limit(), old(deduper.active), msgs[..fed])
      ensures batch.Some? ==>
        && batch.value.0 == Serials(msgs)
        && LastWriteWins(batch.value.1, msgs)
        && batch.value.2 == RaisedByAll(deduper.Limit(), old(deduper.active), msgs)
    {
      hide LedgerAfter, Raised, ActiveOf;
      var order: seq<string>, rows: Rows, alerts: seq<Alert> := [], map[], [];
      for n := 0 to |msgs|
        invariant forall i :: 0 <= i < n ==> msgs[i].serial != ""
        invariant deduper.Valid() && deduper.Limit() == old(deduper.Limit())
        invariant deduper.active == LedgerAfterAll(deduper.Limit(), old(deduper.active), msgs[..n])
        invariant order == Serials(msgs[..n])
        invariant LastWriteWins(rows, msgs[..n])
        invariant alerts == RaisedByAll(deduper.Limit(), old(deduper.active), msgs[..n])
      {
        if msgs[n].serial == "" { return None, n; }
        BatchSnoc(deduper.Limit(), old(deduper.active), msgs, n);
        RowsSnoc(rows, msgs, n);
        var raised := deduper.Process(msgs[n]);
        if msgs[n].serial !in order { order := order + [msgs[n].serial]; }
        rows := rows[msgs[n].serial := msgs[n]];
        alerts := alerts + raised;
      }
      assert msgs[..|msgs|] == msgs;
      return Some((order, rows, alerts)), |msgs|;
    }
  }

  // ---- runs: the ledger against the history of messages ------------------------------------

  /** One call, with the limits in force when it is made: the threshold can be changed while running. */
  datatype Input = Input(l: Limits, m: Message)

  ghost function LedgerRun(h: seq<Input>): Ledger {
    if h == [] then map[] else LedgerAfter(h[|h| - 1].l, LedgerRun(h[..|h| - 1]), h[|h| - 1].m)
  }

  ghost function RaisedBy(h: seq<Input>): seq<Alert>
    requires h != []
  {
    var n := |h| - 1;
    Raised(h[n].l, ActiveOf(LedgerRun(h[..n]), h[n].m.serial), h[n].m)
  }

  ghost function AllRaised(h: seq<Input>): seq<Alert> {
    if h == [] then [] else AllRaised(h[..|h| - 1]) + RaisedBy(h)
  }

  /** The error keys of the robot's latest message. */
  ghost function LastKeys(h: seq<Input>, s: string): set<Condition> {
    if h == [] then {}
    else if h[|h| - 1].m.serial == s then KeysOf(h[|h| - 1].m.errors)
    else LastKeys(h[..|h| - 1], s)
  }

  ghost predicate LowAt(h: seq<Input>, s: string, j: nat)
    requires j < |h|
  {
    h[j].m.serial == s && h[j].m.charge.Some? && h[j].m.charge.value <= h[j].l.threshold
  }

  ghost predicate RecoveredAt(h: seq<Input>, s: string, j: nat)
    requires j < |h|
  {
    && h[j].m.serial == s && h[j].m.charge.Some? && h[j].m.charge.value > h[j].l.threshold
    && h[j].m.charge.value > h[j].l.threshold + h[j].l.hysteresis
  }

  /** A low reading of the robot that no later reading has recovered from. */
  ghost predicate HeldLow(h: seq<Input>, s: string) {
    exists j :: 0 <= j < |h| && LowAt(h, s, j) && forall k :: j < k < |h| ==> !RecoveredAt(h, s, k)
  }

  lemma HeldLowSnoc(h: seq<Input>, s: string)
    requires h != []
    ensures HeldLow(h, s) <==>
      LowAt(h, s, |h| - 1) || (HeldLow(h[..|h| - 1], s) && !RecoveredAt(h, s, |h| - 1))
  {
    var n := |h| - 1;
    var g := h[..n];
    assert forall j :: 0 <= j < n ==> LowAt(h, s, j) == LowAt(g, s, j) && RecoveredAt(h, s, j) == RecoveredAt(g, s, j);
    if HeldLow(g, s) && !RecoveredAt(h, s, n) {
      var j :| 0 <= j < n && LowAt(g, s, j) && forall k :: j < k < n ==> !RecoveredAt(g, s, k);
      assert LowAt(h, s, j) && forall k :: j < k < |h| ==> !RecoveredAt(h, s, k);
    }
    if HeldLow(h, s) && !LowAt(h, s, n) {
      var j :| 0 <= j < |h| && LowAt(h, s, j) && forall k :: j < k < |h| ==> !RecoveredAt(h, s, k);
      assert LowAt(g, s, j) && forall k :: j < k < n ==> !RecoveredAt(g, s, k);
    }
  }

  /** The active set of a robot is its latest error keys, and the battery key while it is held low. */
  lemma {:induction false} LedgerIsHistory(h: seq<Input>, s: string)
    ensures ActiveOf(LedgerRun(h), s) == LastKeys(h, s) + if HeldLow(h, s) then {LOW_BATTERY} else {}
    ensures LOW_BATTERY !in LastKeys(h, s)
  {
    if h != [] {
      LedgerIsHistory(h[..|h| - 1], s);
      HeldLowSnoc(h, s);
      NoBatteryKey(h[|h| - 1].m.errors);
    }
  }

  ghost predicate Alerted(alerts: seq<Alert>, c: Condition) { exists a :: a in alerts && a.condition == c }

  lemma RaisedConditions(l: Limits, active: set<Condition>, m: Message, c: Condition)
    ensures Alerted(Raised(l, active, m), c) <==>
      || c in KeysOf(m.errors) - active
      || (c == LOW_BATTERY && LOW_BATTERY !in active && m.charge.Some? && Low(l, m.charge.value))
    ensures forall a :: a in Raised(l, active, m) ==> a.src == m.serial
  {
    hide Rising, KeyOf, DistinctlyKeyed;
    var r := Rising(active, m.errors);
    var raised := Raised(l, active, m);
    RisingIsFirstAppearance(active, m.errors);
    if c in KeysOf(r) {
      var e :| e in r && KeyOf(e) == c;
      var i :| 0 <= i < |r| && r[i] == e;
      assert raised[i] == ErrorAlert(m, e);
      assert raised[i] in raised;
    }
    if c == LOW_BATTERY && LOW_BATTERY !in active && m.charge.Some? && Low(l, m.charge.value) {
      assert raised[|r|] in raised;
    }
    forall a | a in raised
      ensures a.src == m.serial && (a.condition in KeysOf(r) || a.condition == LOW_BATTERY)
    {
      var i :| 0 <= i < |raised| && raised[i] == a;
      if i < |r| { assert r[i] in r && KeyOf(r[i]) in KeysOf(r); }
    }
  }

  /**
    Alerts are edges. Over any interleaving of robots and any changes of the limits, a message raises an error key
    exactly if it carries it and the robot's previous message did not, and raises the battery exactly if it reads
    low and no earlier low reading of that robot is still unrecovered.
   */
  lemma AlertsAreEdges(h: seq<Input>, c: Condition)
    requires h != []
    ensures var n := |h| - 1; var s := h[n].m.serial;
      Alerted(RaisedBy(h), c) <==>
        if c == LOW_BATTERY then LowAt(h, s, n) && !HeldLow(h[..n], s)
        else c in KeysOf(h[n].m.errors) && c !in LastKeys(h[..n], s)
  {
    hide KeysOf, HeldLow;
    var n := |h| - 1;
    LedgerIsHistory(h[..n], h[n].m.serial);
    NoBatteryKey(h[n].m.errors);
    RaisedConditions(h[n].l, ActiveOf(LedgerRun(h[..n]), h[n].m.serial), h[n].m, c);
  }

  lemma HeldUntil(h: seq<Input>, s: string, i: nat, j: nat)
    requires i < j <= |h| && LowAt(h, s, i) && forall k :: i < k < j ==> !RecoveredAt(h, s, k)
    ensures HeldLow(h[..j], s)
  {
    assert LowAt(h[..j], s, i);
    forall k | i < k < j
      ensures !RecoveredAt(h[..j], s, k)
    {
      assert h[..j][k] == h[k] && !RecoveredAt(h, s, k);
    }
  }

  /** A battery alert: the reading is low, and no earlier low reading is unrecovered. */
  lemma BatteryAlertAt(h: seq<Input>, i: nat)
    requires i < |h| && Alerted(RaisedBy(h[..i + 1]), LOW_BATTERY)
    ensures LowAt(h, h[i].m.serial, i) && !HeldLow(h[..i], h[i].m.serial)
  {
    AlertsAreEdges(h[..i + 1], LOW_BATTERY);
    assert h[..i + 1][..i] == h[..i];
    hide Alerted, RaisedBy, HeldLow;
  }

  /** Between two battery alerts of a robot it has read above threshold plus hysteresis. */
  lemma BatteryAlertsAreSeparated(h: seq<Input>, i: nat, j: nat)
    requires i < j < |h| && h[i].m.serial == h[j].m.serial
    requires Alerted(RaisedBy(h[..i + 1]), LOW_BATTERY) && Alerted(RaisedBy(h[..j + 1]), LOW_BATTERY)
    ensures exists k :: i < k < j && RecoveredAt(h, h[i].m.serial, k)
  {
    hide Alerted, RaisedBy, HeldLow, LowAt, RecoveredAt;
    BatteryAlertAt(h, i);
    BatteryAlertAt(h, j);
    if forall k :: i < k < j ==> !RecoveredAt(h, h[i].m.serial, k) { HeldUntil(h, h[i].m.serial, i, j); }
  }

  ghost function Only(h: seq<Input>, s: string): seq<Input> {
    if h == [] then []
    else Only(h[..|h| - 1], s) + if h[|h| - 1].m.serial == s then [h[|h| - 1]] else []
  }

  ghost function AlertsOf(alerts: seq<Alert>, s: string): seq<Alert> {
    if alerts == [] then []
    else AlertsOf(alerts[..|alerts| - 1], s) + if alerts[|alerts| - 1].src == s then [alerts[|alerts| - 1]] else []
  }

  lemma AlertsOfSnoc(alerts: seq<Alert>, a: Alert, s: string)
    ensures AlertsOf(alerts + [a], s) == AlertsOf(alerts, s) + if a.src == s then [a] else []
  {
    assert (alerts + [a])[..|alerts|] == alerts;
  }

  lemma {:induction false} AlertsOfJoin(a: seq<Alert>, b: seq<Alert>, s: string)
    ensures AlertsOf(a + b, s) == AlertsOf(a, s) + AlertsOf(b, s)
    decreases |b|
  {
    assert AlertsOf([], s) == [];
    hide *;
    if b == [] {
      assert a + b == a;
    } else {
      var front, last := b[..|b| - 1], b[|b| - 1];
      AlertsOfJoin(a, front, s);
      AlertsOfSnoc(a + front, last, s);
      AlertsOfSnoc(front, last, s);
      assert a + b == (a + front) + [last] && b == front + [last];
      Regroup(AlertsOf(a, s), AlertsOf(front, s), if last.src == s then [last] else []);
    }
  }

  lemma {:induction false} AlertsOfOne(a: seq<Alert>, s: string, t: string)
    requires forall x :: x in a ==> x.src == t
    ensures AlertsOf(a, s) == if s == t then a else []
    decreases |a|
  {
    if a != [] {
      var front, last := a[..|a| - 1], a[|a| - 1];
      forall x | x in front ensures x.src == t { assert x in a; }
      assert last in a && a == front + [last];
      AlertsOfOne(front, s, t);
      AlertsOfSnoc(front, last, s);
      hide *;
    }
  }

  lemma RaisedBySrc(h: seq<Input>, s: string)
    requires h != []
    ensures AlertsOf(RaisedBy(h), s) == if s == h[|h| - 1].m.serial then RaisedBy(h) else []
  {
    var n := |h| - 1;
    var t := h[n].m.serial;
    RaisedConditions(h[n].l, ActiveOf(LedgerRun(h[..n]), t), h[n].m, LOW_BATTERY);
    AlertsOfOne(RaisedBy(h), s, t);
  }

  /** Robots do not disturb each other: each one's alerts are those of its own messages alone. */
  lemma {:induction false} RobotsDoNotInterfere(h: seq<Input>, s: string)
    ensures AlertsOf(AllRaised(h), s) == AllRaised(Only(h, s))
    ensures ActiveOf(LedgerRun(h), s) == ActiveOf(LedgerRun(Only(h, s)), s)
  {
    hide Raised, ActiveAfter;
    if h != [] {
      var n := |h| - 1;
      RobotsDoNotInterfere(h[..n], s);
      AlertsOfJoin(AllRaised(h[..n]), RaisedBy(h), s);
      RaisedBySrc(h, s);
      var own := Only(h, s);
      if s == h[n].m.serial {
        assert own[..|own| - 1] == Only(h[..n], s) && own[|own| - 1] == h[n];
        assert RaisedBy(own) == RaisedBy(h);
      } else {
        assert own == Only(h[..n], s);
      }
    }
  }

  // ---- what an alert says --------------------------------------------------------------------------

  /** An error without a type or level has a default, and levels are compared in capitals. */
  lemma PartsOfKey(e: ErrorEntry)
    ensures TypeOf(e) == if e.errorType == "" then "unknown" else e.errorType
    ensures e.errorLevel == "" ==> LevelOf(e) == "WARNING"
    ensures e.errorLevel != "" ==>
      && |LevelOf(e)| == |e.errorLevel|
      && forall i | 0 <= i < |e.errorLevel| ::
           var c := e.errorLevel[i];
           LevelOf(e)[i] == if 'a' <= c <= 'z' then c - 'a' + 'A' else c
  {
  }

  /** The error's key was not active and occurs for the first time in the message. */
  ghost predicate IsNews(active: set<Condition>, errors: seq<ErrorEntry>, i: nat)
    requires i < |errors|
  {
    KeyOf(errors[i]) !in active && forall j | 0 <= j < i :: KeyOf(errors[j]) != KeyOf(errors[i])
  }

  lemma NewsOfPrefix(active: set<Condition>, errors: seq<ErrorEntry>, n: nat)
    requires n < |errors|
    ensures forall i | 0 <= i < n :: IsNews(active, errors[..n], i) <==> IsNews(active, errors, i)
    ensures IsNews(active, errors, n) <==> KeyOf(errors[n]) !in active + KeysOf(errors[..n])
  {
    KeysUpTo(errors, n, KeyOf(errors[n]));
    hide KeyOf, KeysOf;
    assert forall i | 0 <= i < n :: errors[..n][i] == errors[i];
  }

  /** Just the errors that are news raise an alert. */
  lemma {:induction false} RisingAt(active: set<Condition>, errors: seq<ErrorEntry>) returns (at: seq<nat>)
    ensures Picks(errors, at, Rising(active, errors))
    ensures forall i | 0 <= i < |errors| :: i in at <==> IsNews(active, errors, i)
    decreases |errors|
  {
    hide KeyOf, KeysOf, IsNews;
    if errors == [] {
      at := [];
    } else {
      var n := |errors| - 1;
      var before := RisingAt(active, errors[..n]);
      NewsOfPrefix(active, errors, n);
      var taken := KeyOf(errors[n]) !in active + KeysOf(errors[..n]);
      PicksSnoc(errors[..n], errors[n], before, Rising(active, errors[..n]), taken);
      at := before + if taken then [n] else [];
      assert errors[..n] + [errors[n]] == errors;
      hide Picks;
    }
  }

  lemma KeysUpTo(errors: seq<ErrorEntry>, n: nat, key: Condition)
    requires n <= |errors|
    ensures key in KeysOf(errors[..n]) <==> exists j :: 0 <= j < n && KeyOf(errors[j]) == key
  {
    hide KeyOf;
    if j :| 0 <= j < n && KeyOf(errors[j]) == key { assert errors[..n][j] in errors[..n]; }
  }

  /**
    The alerts of a message: first, in the order of its errors, one for each key that was not active, critical exactly
    at level FATAL, CRITICAL or URGENT; then one for a battery at or below the threshold that was not low yet, critical
    exactly at a charge of ten or less. Each names the robot and the time of the message.
   */
  lemma AlertsInOrder(l: Limits, active: set<Condition>, m: Message) returns (at: seq<nat>)
    ensures Increasing(at) && forall k | 0 <= k < |at| :: at[k] < |m.errors|
    ensures forall i | 0 <= i < |m.errors| :: i in at <==> IsNews(active, m.errors, i)
    ensures var out := Raised(l, active, m); var low := LOW_BATTERY !in active && m.charge.Some?;
      && |out| == |at| + (if low && m.charge.value <= l.threshold then 1 else 0)
      && (forall k | 0 <= k < |at| ::
            out[k] == Alert(m.serial, KeyOf(m.errors[at[k]]),
                            LevelOf(m.errors[at[k]]) in {"FATAL", "CRITICAL", "URGENT"}, m.at))
      && (|out| > |at| ==> out[|at|] == Alert(m.serial, Condition("battery:low"), m.charge.value <= 10.0, m.at))
  {
    at := RisingAt(active, m.errors);
    hide KeyOf, LevelOf, Rising;
    var r := Rising(active, m.errors);
    forall k | 0 <= k < |at|
      ensures Raised(l, active, m)[k] == Alert(m.serial, KeyOf(m.errors[at[k]]), Severe(m.errors[at[k]]), m.at)
    {
      assert Raised(l, active, m)[k] == ErrorAlert(m, r[k]) && r[k] == m.errors[at[k]];
    }
  }

  // ---- what a batch keeps ---------------------------------------------------------------------------

  /** The row kept of a robot is its last message in the batch. */
  lemma {:induction false} LatestIs(msgs: seq<Message>, s: string)
    ensures Latest(msgs, s).None? <==> forall i | 0 <= i < |msgs| :: msgs[i].serial != s
    ensures Latest(msgs, s).Some? ==>
      exists i :: 0 <= i < |msgs| && Latest(msgs, s) == Some(msgs[i]) && msgs[i].serial == s
                  && forall j | i < j < |msgs| :: msgs[j].serial != s
    decreases |msgs|
  {
    if msgs != [] {
      var n := |msgs| - 1;
      LatestIs(msgs[..n], s);
      if msgs[n].serial != s && Latest(msgs, s).Some? {
        var i :| 0 <= i < n && Latest(msgs, s) == Some(msgs[..n][i]) && msgs[..n][i].serial == s
                 && forall j | i < j < n :: msgs[..n][j].serial != s;
        forall j | i < j < |msgs| ensures msgs[j].serial != s {
          if j < n { assert msgs[..n][j].serial != s; }
        }
      }
    }
  }

  ghost predicate AppearsFirst(msgs: seq<Message>, i: nat)
    requires i < |msgs|
  {
    forall j | 0 <= j < i :: msgs[j].serial != msgs[i].serial
  }

  function SerialsOf(msgs: seq<Message>): seq<string> { seq(|msgs|, i requires 0 <= i < |msgs| => msgs[i].serial) }

  lemma {:induction false} SerialsAreAll(msgs: seq<Message>, s: string)
    ensures s in Serials(msgs) <==> exists i :: 0 <= i < |msgs| && msgs[i].serial == s
    decreases |msgs|
  {
    if msgs != [] {
      var n := |msgs| - 1;
      SerialsAreAll(msgs[..n], s);
      if i :| 0 <= i < n && msgs[i].serial == s { assert msgs[..n][i].serial == s; }
    }
  }

  lemma FirstInPrefix(msgs: seq<Message>, n: nat)
    requires n < |msgs|
    ensures forall i | 0 <= i < n :: AppearsFirst(msgs[..n], i) <==> AppearsFirst(msgs, i)
    ensures AppearsFirst(msgs, n) <==> msgs[n].serial !in Serials(msgs[..n])
  {
    SerialsAreAll(msgs[..n], msgs[n].serial);
    assert forall i | 0 <= i < n :: msgs[..n][i] == msgs[i];
  }

  lemma SerialsSnoc(msgs: seq<Message>, n: nat)
    requires |msgs| == n + 1
    ensures SerialsOf(msgs) == SerialsOf(msgs[..n]) + [msgs[n].serial] && |SerialsOf(msgs[..n])| == n
    ensures var s, was := msgs[n].serial, Serials(msgs[..n]); Serials(msgs) == was + if s !in was then [s] else []
  {
  }

  /** The robots of a batch, each once, in the order in which they first appear. */
  lemma {:induction false} SerialsAppear(msgs: seq<Message>) returns (at: seq<nat>)
    ensures Picks(SerialsOf(msgs), at, Serials(msgs))
    ensures forall i | 0 <= i < |msgs| :: i in at <==> AppearsFirst(msgs, i)
    decreases |msgs|
  {
    if msgs == [] {
      at := [];
    } else {
      hide *;
      var n := |msgs| - 1;
      var before := SerialsAppear(msgs[..n]);
      var s := msgs[n].serial;
      FirstInPrefix(msgs, n);
      SerialsSnoc(msgs, n);
      PicksSnoc(SerialsOf(msgs[..n]), s, before, Serials(msgs[..n]), s !in Serials(msgs[..n]));
      at := before + if s !in Serials(msgs[..n]) then [n] else [];
    }
  }
}
