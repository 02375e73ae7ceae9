/**
 * Sealed-channel keys: one current key per channel, a window of earlier ones
 * for old ciphertext, and the rows both are rebuilt from at start-up.
 * AES-GCM is symbolic: a text opens under the key, nonce and channel that sealed it.
 */
module SealedKeys {
  import opened Common

  type Key = seq<Byte>

  const MAX_PREVIOUS := 5

  datatype KeyInfo = KeyInfo(epoch: int, key: Key)

  datatype Error = NoKey | EpochUnavailable | NotAuthentic

  datatype Sealed = Sealed(key: Key, nonce: Key, channel: string, text: string)

  // ---- One channel ----

  datatype Ring = Ring(current: Option<KeyInfo>, history: seq<KeyInfo>)

  const EMPTY := Ring(None, [])

  function EpochOf(r: Ring): int {
    if r.current.Some? then r.current.value.epoch else 0
  }

  function Generate(r: Ring, key: Key): Ring {
    r.(current := Some(KeyInfo(EpochOf(r) + 1, key)))
  }

  function Rotate(r: Ring, key: Key): Ring {
    if r.current.None? then Generate(r, key)
    else Generate(r.(history := LastN(r.history + [r.current.value], MAX_PREVIOUS)), key)
  }

  function Find(h: seq<KeyInfo>, epoch: int): (k: Option<Key>)
    ensures k.None? <==> forall i :: 0 <= i < |h| ==> h[i].epoch != epoch
    ensures k.Some? ==> KeyInfo(epoch, k.value) in h
  {
    if h == [] then None
    else if h[0].epoch == epoch then Some(h[0].key)
    else Find(h[1..], epoch)
  }

  function KeyFor(r: Ring, epoch: Option<int>): Result<Key, Error> {
    if r.current.None? then Err(NoKey)
    else if epoch.None? || epoch.value == r.current.value.epoch then Ok(r.current.value.key)
    else
      var k := Find(r.history, epoch.value);
      if k.None? then Err(EpochUnavailable) else Ok(k.value)
  }

  function Open(r: Ring, channel: string, nonce: Key, c: Sealed, epoch: Option<int>): Result<string, Error> {
    var k := KeyFor(r, epoch);
    if k.Err? then Err(k.error)
    else if c.key == k.value && c.nonce == nonce && c.channel == channel then Ok(c.text)
    else Err(NotAuthentic)
  }

  // ---- Runs of one channel ----

  /** A key made by `generate_key` alone, or by a rotation. */
  datatype Event = Created(key: Key) | Rotated(key: Key)

  function After(es: seq<Event>): Ring
    decreases |es|
  {
    if es == [] then EMPTY
    else
      var r := After(es[..|es| - 1]);
      match es[|es| - 1]
      case Created(k) => Generate(r, k)
      case Rotated(k) => Rotate(r, k)
  }

  function Info(es: seq<Event>, i: nat): KeyInfo
    requires i < |es|
  {
    KeyInfo(i + 1, es[i].key)
  }

  /** Every key of the run that a rotation replaced, oldest first. */
  function Superseded(es: seq<Event>): seq<KeyInfo>
    decreases |es|
  {
    var n := |es|;
    if n < 2 then []
    else Superseded(es[..n - 1]) + if es[n - 1].Rotated? then [Info(es, n - 2)] else []
  }

  /** The state after any run in closed form: the latest key, and the last five superseded ones. */
  lemma {:induction false} WindowIs(es: seq<Event>)
    ensures After(es) ==
            if es == [] then EMPTY else Ring(Some(Info(es, |es| - 1)), LastN(Superseded(es), MAX_PREVIOUS))
    decreases |es|
  {
    if es != [] {
      var n := |es|;
      var front := es[..n - 1];
      WindowIs(front);
      if n > 1 {
        assert Info(front, n - 2) == Info(es, n - 2);
      }
    }
  }

  function Rotations(es: seq<Event>): nat {
    if es == [] then 0 else (if es[|es| - 1].Rotated? then 1 else 0) + Rotations(es[..|es| - 1])
  }

  lemma RotationsSplit(es: seq<Event>, i: nat)
    requires i + 1 < |es|
    ensures Rotations(es[i + 1..]) == Rotations(es[..|es| - 1][i + 1..]) + if es[|es| - 1].Rotated? then 1 else 0
  {
    var tail := es[i + 1..];
    assert tail[..|tail| - 1] == es[..|es| - 1][i + 1..] && tail[|tail| - 1] == es[|es| - 1];
  }

  /** Which epochs are superseded, and where each stands in the list. */
  lemma {:induction false} SupersededAt(es: seq<Event>, i: nat)
    requires i + 1 < |es| && es[i + 1].Rotated?
    ensures var s, back := Superseded(es), Rotations(es[i + 1..]);
            0 < back <= |s| && s[|s| - back] == Info(es, i)
    decreases |es|
  {
    var front := es[..|es| - 1];
    RotationsSplit(es, i);
    if i + 2 < |es| {
      SupersededAt(front, i);
    } else {
      assert front[i + 1..] == [];
    }
  }

  lemma {:induction false} SupersededIs(es: seq<Event>, p: nat) returns (i: nat)
    requires p < |Superseded(es)|
    ensures i + 1 < |es| && es[i + 1].Rotated? && Superseded(es)[p] == Info(es, i)
    ensures p == |Superseded(es)| - Rotations(es[i + 1..])
    decreases |es|
  {
    var front := es[..|es| - 1];
    if p < |Superseded(front)| {
      i := SupersededIs(front, p);
    } else {
      i := |es| - 2;
      assert front[i + 1..] == [];
    }
    RotationsSplit(es, i);
  }

  /** The epoch is current, or a rotation replaced it and at most five rotations followed, that one included. */
  predicate Retained(es: seq<Event>, i: nat)
    requires i < |es|
  {
    i == |es| - 1 || (es[i + 1].Rotated? && Rotations(es[i + 1..]) <= MAX_PREVIOUS)
  }

  lemma RetainedIsFound(es: seq<Event>, i: nat)
    requires i + 1 < |es| && Retained(es, i)
    ensures Find(LastN(Superseded(es), MAX_PREVIOUS), i + 1).Some?
  {
    var s, back := Superseded(es), Rotations(es[i + 1..]);
    var h := LastN(s, MAX_PREVIOUS);
    SupersededAt(es, i);
    assert h[|h| - back] == s[|s| - back];
  }

  lemma FoundAt(s: seq<KeyInfo>, m: nat, epoch: int) returns (q: nat)
    requires Find(LastN(s, m), epoch).Some?
    ensures |s| - m <= q < |s| && s[q] == KeyInfo(epoch, Find(LastN(s, m), epoch).value)
  {
    var h := LastN(s, m);
    var p :| 0 <= p < |h| && h[p] == KeyInfo(epoch, Find(h, epoch).value);
    q := |s| - |h| + p;
  }

  lemma FoundIsRetained(es: seq<Event>, i: nat)
    requires i + 1 < |es| && Find(LastN(Superseded(es), MAX_PREVIOUS), i + 1).Some?
    ensures Retained(es, i) && Find(LastN(Superseded(es), MAX_PREVIOUS), i + 1).value == es[i].key
  {
    var q := FoundAt(Superseded(es), MAX_PREVIOUS, i + 1);
    var i' := SupersededIs(es, q);
  }

  lemma KeyForIff(es: seq<Event>, i: nat)
    requires i < |es|
    ensures KeyFor(After(es), Some(i + 1)) == if Retained(es, i) then Ok(es[i].key) else Err(EpochUnavailable)
  {
    WindowIs(es);
    KeyInWindow(es, i, Info(es, |es| - 1), LastN(Superseded(es), MAX_PREVIOUS));
  }

  lemma KeyInWindow(es: seq<Event>, i: nat, current: KeyInfo, history: seq<KeyInfo>)
    requires i < |es| && current == Info(es, |es| - 1) && history == LastN(Superseded(es), MAX_PREVIOUS)
    ensures KeyFor(Ring(Some(current), history), Some(i + 1)) ==
            if Retained(es, i) then Ok(es[i].key) else Err(EpochUnavailable)
  {
    KeyIn(current, history, i + 1);
    if i + 1 < |es| {
      FoundIff(es, i);
    }
  }

  lemma KeyIn(current: KeyInfo, history: seq<KeyInfo>, epoch: int)
    ensures KeyFor(Ring(Some(current), history), Some(epoch)) ==
            if epoch == current.epoch then Ok(current.key)
            else if Find(history, epoch).Some? then Ok(Find(history, epoch).value) else Err(EpochUnavailable)
  {
  }

  lemma FoundIff(es: seq<Event>, i: nat)
    requires i + 1 < |es|
    ensures Find(LastN(Superseded(es), MAX_PREVIOUS), i + 1) == if Retained(es, i) then Some(es[i].key) else None
  {
    if Retained(es, i) {
      RetainedIsFound(es, i);
      FoundIsRetained(es, i);
    } else if Find(LastN(Superseded(es), MAX_PREVIOUS), i + 1).Some? {
      FoundIsRetained(es, i);
      assert false;
    }
  }

  /**
   * A text sealed under epoch `i + 1` of a run opens later exactly while that
   * epoch is retained, with its own nonce and under its own channel's name.
   */
  lemma OpensIff(es: seq<Event>, i: nat, nonce: Key, with: Key, channel: string, under: string, text: string)
    requires i < |es|
    ensures KeyFor(After(es[..i + 1]), None) == Ok(es[i].key)
    ensures Open(After(es), under, with, Sealed(es[i].key, nonce, channel, text), Some(i + 1)) ==
            if !Retained(es, i) then Err(EpochUnavailable)
            else if under == channel && with == nonce then Ok(text) else Err(NotAuthentic)
  {
    WindowIs(es[..i + 1]);
    KeyForIff(es, i);
  }

  // ---- Runs of rotations only ----

  predicate OneCreation(es: seq<Event>) {
    es != [] && forall i :: 1 <= i < |es| ==> es[i].Rotated?
  }

  lemma {:induction false} AllRotated(es: seq<Event>)
    requires forall i :: 0 <= i < |es| ==> es[i].Rotated?
    ensures Rotations(es) == |es|
    decreases |es|
  {
    if es != [] {
      AllRotated(es[..|es| - 1]);
    }
  }

  /** Every key of the run, oldest first. */
  function Issued(es: seq<Event>): seq<KeyInfo>
    decreases |es|
  {
    if es == [] then [] else Issued(es[..|es| - 1]) + [Info(es, |es| - 1)]
  }

  lemma {:induction false} IssuedAt(es: seq<Event>, i: nat)
    requires i < |es|
    ensures |Issued(es)| == |es| && Issued(es)[i] == Info(es, i)
    decreases |es|
  {
    var front := es[..|es| - 1];
    if i < |front| {
      IssuedAt(front, i);
    } else if front != [] {
      IssuedAt(front, 0);
    }
  }

  /** What a full window holds: the at most five epochs just below the current one. */
  function FullWindow(es: seq<Event>): seq<KeyInfo>
    requires es != []
  {
    LastN(Issued(es[..|es| - 1]), MAX_PREVIOUS)
  }

  predicate LatestRotated(es: seq<Event>, m: nat) {
    forall i :: 1 <= i < |es| && i >= |es| - m ==> es[i].Rotated?
  }

  lemma LastNGrows<T>(s: seq<T>, x: T, m: nat)
    requires m > 0
    ensures LastN(s + [x], m) == LastN(s, m - 1) + [x]
  {
  }

  lemma {:induction false} LatestAgree(es: seq<Event>, m: nat)
    requires es != [] && LatestRotated(es, m)
    ensures LastN(Superseded(es), m) == LastN(Issued(es[..|es| - 1]), m)
    decreases |es|
  {
    var n := |es|;
    if n > 1 && m > 0 {
      var front := es[..n - 1];
      LatestAgree(front, m - 1);
      var x := Info(es, n - 2);
      assert Superseded(es) == Superseded(front) + [x];
      assert Issued(front) == Issued(front[..n - 2]) + [x];
      LastNGrows(Superseded(front), x, m);
      LastNGrows(Issued(front[..n - 2]), x, m);
    }
  }

  /** If the two lists end alike, the superseded one holds epoch `i`. */
  lemma LatestIs(es: seq<Event>, m: nat, i: nat)
    requires 1 <= i < |es| && i >= |es| - m
    requires LastN(Superseded(es), m) == LastN(Issued(es[..|es| - 1]), m)
    ensures |es| - i <= |Superseded(es)| && Superseded(es)[|Superseded(es)| - (|es| - i)].epoch == i
  {
    var front := es[..|es| - 1];
    IssuedAt(front, i - 1);
    LastNAt(Superseded(es), Issued(front), m, |es| - i);
  }

  lemma AgreeOnlyIf(es: seq<Event>, m: nat, i: nat)
    requires 1 <= i < |es| && i >= |es| - m
    requires LastN(Superseded(es), m) == LastN(Issued(es[..|es| - 1]), m)
    ensures es[i].Rotated?
  {
    LatestIs(es, m, i);
    HeldIsRotated(es, |Superseded(es)| - (|es| - i), i);
  }

  lemma HeldIsRotated(es: seq<Event>, q: nat, i: nat)
    requires q < |Superseded(es)| && Superseded(es)[q].epoch == i
    ensures 1 <= i < |es| && es[i].Rotated?
  {
    var i' := SupersededIs(es, q);
    assert Info(es, i').epoch == i' + 1;
  }

  lemma LastNAt<T>(s: seq<T>, t: seq<T>, m: nat, back: nat)
    requires LastN(s, m) == LastN(t, m) && 0 < back <= m && back <= |t|
    ensures back <= |s| && s[|s| - back] == t[|t| - back]
  {
    var h := LastN(s, m);
    assert |h| >= back;
    assert s[|s| - back] == h[|h| - back];
    assert t[|t| - back] == LastN(t, m)[|h| - back];
  }

  /** The retained window has no gap exactly when the latest steps, five of them or all, are rotations. */
  lemma FullWindowIff(es: seq<Event>)
    requires es != []
    ensures After(es).history == FullWindow(es) <==> LatestRotated(es, MAX_PREVIOUS)
  {
    WindowIs(es);
    if After(es).history == FullWindow(es) {
      forall i | 1 <= i < |es| && i >= |es| - MAX_PREVIOUS
        ensures es[i].Rotated?
      {
        AgreeOnlyIf(es, MAX_PREVIOUS, i);
      }
    }
    if LatestRotated(es, MAX_PREVIOUS) {
      LatestAgree(es, MAX_PREVIOUS);
    }
  }

  /** From one creation on: the window is contiguous and an epoch is served for five further rotations. */
  lemma RotationWindow(es: seq<Event>, i: nat)
    requires OneCreation(es) && i < |es|
    ensures After(es) == Ring(Some(Info(es, |es| - 1)), FullWindow(es))
    ensures KeyFor(After(es), Some(i + 1)) ==
            if |es| - 1 - i <= MAX_PREVIOUS then Ok(es[i].key) else Err(EpochUnavailable)
  {
    WindowIs(es);
    FullWindowIff(es);
    AllRotated(es[i + 1..]);
    KeyForIff(es, i);
  }

  // ---- Rows ----

  /** `owner` is the identity column, `readable` the identity the blob was encrypted to. */
  datatype Row = Row(channel: string, owner: string, epoch: int, readable: string, key: Key)

  function InsertNewest(r: Row, rows: seq<Row>): seq<Row> {
    if rows == [] || r.epoch >= rows[0].epoch then [r] + rows else [rows[0]] + InsertNewest(r, rows[1..])
  }

  /** The rows of one channel and one owner, highest epoch first. */
  function Newest(rows: seq<Row>, channel: string, node: string): seq<Row>
    decreases |rows|
  {
    if rows == [] then []
    else
      var r, rest := rows[|rows| - 1], Newest(rows[..|rows| - 1], channel, node);
      if r.channel == channel && r.owner == node then InsertNewest(r, rest) else rest
  }

  function FirstN<T>(s: seq<T>, n: nat): seq<T> {
    if |s| <= n then s else s[..n]
  }

  /** The older rows the node can read, oldest first. */
  function Readable(rows: seq<Row>, node: string): seq<KeyInfo> {
    if rows == [] then []
    else Readable(rows[1..], node) + if rows[0].readable == node then [KeyInfo(rows[0].epoch, rows[0].key)] else []
  }

  function LoadRows(r: Ring, rows: seq<Row>, node: string): Ring {
    if rows == [] || rows[0].readable != node then r
    else
      var older := Readable(rows[1..], node);
      Ring(Some(KeyInfo(rows[0].epoch, rows[0].key)), if older == [] then r.history else older)
  }

  function Load(r: Ring, rows: seq<Row>, channel: string, node: string): Ring {
    LoadRows(r, FirstN(Newest(rows, channel, node), MAX_PREVIOUS + 1), node)
  }

  function OwnRow(channel: string, node: string, i: KeyInfo): Row {
    Row(channel, node, i.epoch, node, i.key)
  }

  /** The channel's own rows, in the order they were written. */
  function Own(rows: seq<Row>, channel: string, node: string): seq<Row>
    decreases |rows|
  {
    if rows == [] then []
    else
      var r, rest := rows[|rows| - 1], Own(rows[..|rows| - 1], channel, node);
      if r.channel == channel && r.owner == node then rest + [r] else rest
  }

  predicate Ascending(s: seq<KeyInfo>) {
    forall i, j :: 0 <= i < j < |s| ==> s[i].epoch < s[j].epoch
  }

  function OwnRows(channel: string, node: string, s: seq<KeyInfo>): (rows: seq<Row>)
    ensures rows == [] <==> s == []
  {
    if s == [] then [] else OwnRows(channel, node, s[..|s| - 1]) + [OwnRow(channel, node, s[|s| - 1])]
  }

  /** Among other channels' and identities' rows, the node's own ones for the channel hold `s`. */
  predicate Wrote(rows: seq<Row>, channel: string, node: string, s: seq<KeyInfo>) {
    Own(rows, channel, node) == OwnRows(channel, node, s)
  }

  function NewestOf(channel: string, node: string, s: seq<KeyInfo>): seq<Row> {
    if s == [] then [] else [OwnRow(channel, node, s[|s| - 1])] + NewestOf(channel, node, s[..|s| - 1])
  }

  lemma {:induction false} NewestIs(rows: seq<Row>, channel: string, node: string, s: seq<KeyInfo>)
    requires Wrote(rows, channel, node, s) && Ascending(s)
    ensures Newest(rows, channel, node) == NewestOf(channel, node, s)
    decreases |rows|
  {
    if rows != [] {
      var r, front := rows[|rows| - 1], rows[..|rows| - 1];
      if r.channel == channel && r.owner == node {
        var own, rest, s' := Own(rows, channel, node), Own(front, channel, node), s[..|s| - 1];
        assert own == rest + [r] && own[..|own| - 1] == rest;
        assert OwnRows(channel, node, s)[..|own| - 1] == OwnRows(channel, node, s');
        NewestIs(front, channel, node, s');
        assert r == OwnRow(channel, node, s[|s| - 1]);
      } else {
        NewestIs(front, channel, node, s);
      }
    }
  }

  lemma {:induction false} ReadableIs(channel: string, node: string, s: seq<KeyInfo>, m: nat)
    ensures Readable(FirstN(NewestOf(channel, node, s), m), node) == LastN(s, m)
    decreases |s|
  {
    if s != [] && m > 0 {
      var x, s' := s[|s| - 1], s[..|s| - 1];
      var rest := NewestOf(channel, node, s');
      ReadableIs(channel, node, s', m - 1);
      assert FirstN([OwnRow(channel, node, x)] + rest, m) == [OwnRow(channel, node, x)] + FirstN(rest, m - 1);
      LastNGrows(s', x, m);
      assert s == s' + [x];
    }
  }

  /** A fresh manager that loads rows written in epoch order gets the newest as its key and the five before it. */
  lemma LoadIs(rows: seq<Row>, channel: string, node: string, s: seq<KeyInfo>)
    requires Wrote(rows, channel, node, s) && Ascending(s)
    ensures Load(EMPTY, rows, channel, node) ==
            if s == [] then EMPTY else Ring(Some(s[|s| - 1]), LastN(s[..|s| - 1], MAX_PREVIOUS))
  {
    NewestIs(rows, channel, node, s);
    if s != [] {
      var top := FirstN(NewestOf(channel, node, s), MAX_PREVIOUS + 1);
      assert top[1..] == FirstN(NewestOf(channel, node, s[..|s| - 1]), MAX_PREVIOUS);
      ReadableIs(channel, node, s[..|s| - 1], MAX_PREVIOUS);
    }
  }

  lemma IssuedAscending(es: seq<Event>)
    ensures |Issued(es)| == |es| && Ascending(Issued(es))
  {
    forall i | 0 <= i < |es|
      ensures |Issued(es)| == |es| && Issued(es)[i] == Info(es, i)
    {
      IssuedAt(es, i);
    }
    assert |es| > 0 ==> Issued(es)[0] == Info(es, 0);
  }

  /** A channel whose newest row the node cannot read, or that has none, is left as it is. */
  lemma UnreadableKeeps(r: Ring, rows: seq<Row>, channel: string, node: string)
    requires var top := Newest(rows, channel, node); top == [] || top[0].readable != node
    ensures Load(r, rows, channel, node) == r
  {
  }

  /** Otherwise the newest row is current, and the history is what can be read of the five before it, if anything. */
  lemma ReadableLoads(r: Ring, rows: seq<Row>, channel: string, node: string)
    requires var top := Newest(rows, channel, node); top != [] && top[0].readable == node
    ensures var top := Newest(rows, channel, node);
            var older := Readable(FirstN(top[1..], MAX_PREVIOUS), node);
            && Load(r, rows, channel, node).current == Some(KeyInfo(top[0].epoch, top[0].key))
            && Load(r, rows, channel, node).history == if older == [] then r.history else older
  {
    var top := Newest(rows, channel, node);
    assert FirstN(top, MAX_PREVIOUS + 1)[1..] == FirstN(top[1..], MAX_PREVIOUS);
  }

  /** Read are exactly the rows made for this node, oldest first. */
  lemma {:induction false} ReadableHolds(rows: seq<Row>, node: string, x: KeyInfo)
    ensures x in Readable(rows, node) <==> exists i :: 0 <= i < |rows| && rows[i].readable == node && x == KeyInfo(rows[i].epoch, rows[i].key)
  {
    if rows != [] {
      ReadableHolds(rows[1..], node, x);
      if i :| 0 <= i < |rows| && rows[i].readable == node && x == KeyInfo(rows[i].epoch, rows[i].key) {
        assert i > 0 ==> rows[1..][i - 1] == rows[i];
      }
      if j :| 0 <= j < |rows[1..]| && rows[1..][j].readable == node && x == KeyInfo(rows[1..][j].epoch, rows[1..][j].key) {
        assert rows[j + 1] == rows[1..][j];
      }
    }
  }

  /**
   * With every epoch of a run written once, start-up rebuilds the current key,
   * and the same window exactly when the latest steps were rotations.
   */
  lemma ReloadRebuildsIff(es: seq<Event>, rows: seq<Row>, channel: string, node: string)
    requires es != [] && Wrote(rows, channel, node, Issued(es))
    ensures Load(EMPTY, rows, channel, node) == Ring(After(es).current, FullWindow(es))
    ensures Load(EMPTY, rows, channel, node) == After(es) <==> LatestRotated(es, MAX_PREVIOUS)
  {
    var s := Issued(es);
    IssuedAscending(es);
    LoadIs(rows, channel, node, s);
    WindowIs(es);
    FullWindowIff(es);
    assert s[..|s| - 1] == Issued(es[..|es| - 1]);
  }

  /** The epochs of a run chosen by `saved`, in order. */
  function Written(es: seq<Event>, saved: seq<bool>): seq<KeyInfo>
    requires |es| == |saved|
    decreases |es|
  {
    var n := |es|;
    if n == 0 then []
    else Written(es[..n - 1], saved[..n - 1]) + if saved[n - 1] then [Info(es, n - 1)] else []
  }

  predicate Within(s: seq<KeyInfo>, n: nat) {
    forall i :: 0 <= i < |s| ==> 1 <= s[i].epoch <= n
  }

  lemma AscendingGrows(s: seq<KeyInfo>, n: nat, x: KeyInfo)
    requires Ascending(s) && Within(s, n) && x.epoch == n + 1
    ensures Ascending(s + [x]) && Within(s + [x], n + 1)
  {
  }

  lemma {:induction false} WrittenAscending(es: seq<Event>, saved: seq<bool>)
    requires |es| == |saved|
    ensures Ascending(Written(es, saved)) && Within(Written(es, saved), |es|)
    decreases |es|
  {
    if es != [] {
      var n := |es| - 1;
      var rest := Written(es[..n], saved[..n]);
      WrittenAscending(es[..n], saved[..n]);
      AscendingGrows(rest, n, Info(es, n));
      assert !saved[n] ==> Written(es, saved) == rest;
    }
  }

  /**
   * Rotations are not always written (removing a member does not). Across a
   * restart the next key gets an epoch number never used before exactly when
   * the run's latest epoch was written.
   */
  lemma EpochFreshIff(es: seq<Event>, saved: seq<bool>, rows: seq<Row>, channel: string, node: string, key: Key)
    requires es != [] && |es| == |saved| && Wrote(rows, channel, node, Written(es, saved))
    ensures var r := Load(EMPTY, rows, channel, node);
            && EpochOf(Rotate(r, key)) == EpochOf(r) + 1
            && (EpochOf(Rotate(r, key)) > |es| <==> saved[|es| - 1])
            && 1 <= EpochOf(Rotate(r, key)) <= |es| + 1
  {
    WrittenAscending(es, saved);
    LoadIs(rows, channel, node, Written(es, saved));
    LastWritten(es, saved);
  }

  /** The highest epoch written is the latest one exactly when that was written. */
  lemma LastWritten(es: seq<Event>, saved: seq<bool>)
    requires es != [] && |es| == |saved|
    ensures var s := Written(es, saved);
            if s == [] then !saved[|es| - 1]
            else 1 <= s[|s| - 1].epoch <= |es| && (s[|s| - 1].epoch == |es| <==> saved[|es| - 1])
  {
    var n := |es| - 1;
    WrittenAscending(es[..n], saved[..n]);
  }

  // ---- The manager ----

  function RingIn(keys: map<string, KeyInfo>, previous: map<string, seq<KeyInfo>>, channel: string): Ring {
    Ring(if channel in keys then Some(keys[channel]) else None, if channel in previous then previous[channel] else [])
  }

  /** The loop over the older rows: oldest first, unreadable ones skipped. */
  method HydrateHistory(rows: seq<Row>, node: string) returns (history: seq<KeyInfo>)
    ensures history == Readable(rows, node)
  {
    history := [];
    var i := |rows|;
    while i > 0
      invariant 0 <= i <= |rows| && history == Readable(rows[i..], node)
    {
      i := i - 1;
      assert rows[i..][1..] == rows[i + 1..];
      if rows[i].readable == node {
        history := history + [KeyInfo(rows[i].epoch, rows[i].key)];
      }
    }
    assert rows[0..] == rows;
  }

  class SealedChannelManager {
    var keys: map<string, KeyInfo>
    var previous: map<string, seq<KeyInfo>>

    function RingOf(channel: string): Ring
      reads this
    {
      RingIn(keys, previous, channel)
    }

    constructor ()
      ensures forall c :: RingOf(c) == EMPTY
    {
      keys, previous := map[], map[];
    }

    method GenerateKey(channel: string, key: Key) returns (epoch: int)
      modifies this`keys
      ensures RingOf(channel) == Generate(old(RingOf(channel)), key) && epoch == EpochOf(RingOf(channel))
      ensures forall c :: c != channel ==> RingOf(c) == old(RingOf(c))
    {
      epoch := (if channel in keys then keys[channel].epoch else 0) + 1;
      keys := keys[channel := KeyInfo(epoch, key)];
    }

    method RotateKey(channel: string, key: Key) returns (epoch: int)
      modifies this
      ensures RingOf(channel) == Rotate(old(RingOf(channel)), key) && epoch == EpochOf(RingOf(channel))
      ensures forall c :: c != channel ==> RingOf(c) == old(RingOf(c))
    {
      if channel in keys {
        var history := (if channel in previous then previous[channel] else []) + [keys[channel]];
        if |history| > MAX_PREVIOUS {
          history := history[|history| - MAX_PREVIOUS..];
        }
        previous := previous[channel := history];
      }
      epoch := GenerateKey(channel, key);
    }

    method Encrypt(channel: string, text: string, nonce: Key) returns (r: Result<(Sealed, int), Error>)
      ensures var k := KeyFor(RingOf(channel), None);
              r == if k.Err? then Err(k.error) else Ok((Sealed(k.value, nonce, channel, text), EpochOf(RingOf(channel))))
      ensures r.Ok? ==> Open(RingOf(channel), channel, nonce, r.value.0, Some(r.value.1)) == Ok(text)
    {
      if channel !in keys {
        return Err(NoKey);
      }
      r := Ok((Sealed(keys[channel].key, nonce, channel, text), keys[channel].epoch));
    }

    method Decrypt(channel: string, nonce: Key, c: Sealed, epoch: Option<int>) returns (r: Result<string, Error>)
      ensures r == Open(RingOf(channel), channel, nonce, c, epoch)
    {
      if channel !in keys {
        return Err(NoKey);
      }
      var key := keys[channel].key;
      if epoch.Some? && epoch.value != keys[channel].epoch {
        var found := Find(if channel in previous then previous[channel] else [], epoch.value);
        if found.None? {
          return Err(EpochUnavailable);
        }
        key := found.value;
      }
      r := if c.key == key && c.nonce == nonce && c.channel == channel then Ok(c.text) else Err(NotAuthentic);
    }

    method PersistKey(rows: seq<Row>, channel: string, node: string) returns (r: Result<seq<Row>, Error>)
      ensures var k := RingOf(channel).current;
              if k.None? then r == Err(NoKey)
              else r.Ok? && Own(r.value, channel, node) == Own(rows, channel, node) + [OwnRow(channel, node, k.value)]
      ensures r.Ok? ==> forall c, n :: c != channel || n != node ==> Own(r.value, c, n) == Own(rows, c, n)
    {
      if channel !in keys {
        return Err(NoKey);
      }
      var row := Row(channel, node, keys[channel].epoch, node, keys[channel].key);
      assert (rows + [row])[..|rows|] == rows;
      r := Ok(rows + [row]);
    }

    method LoadChannel(rows: seq<Row>, channel: string, node: string)
      modifies this
      ensures RingOf(channel) == Load(old(RingOf(channel)), rows, channel, node)
      ensures forall c :: c != channel ==> RingOf(c) == old(RingOf(c))
    {
      var top := FirstN(Newest(rows, channel, node), MAX_PREVIOUS + 1);
      if top == [] || top[0].readable != node {
        return;
      }
      keys := keys[channel := KeyInfo(top[0].epoch, top[0].key)];
      var history := HydrateHistory(top[1..], node);
      if history != [] {
        previous := previous[channel := history];
      }
    }

    method LoadKeys(rows: seq<Row>, channels: seq<string>, node: string)
      requires forall i, j :: 0 <= i < j < |channels| ==> channels[i] != channels[j]
      modifies this
      ensures forall c :: RingOf(c) == if c in channels then Load(old(RingOf(c)), rows, c, node) else old(RingOf(c))
    {
      for i := 0 to |channels|
        invariant forall c :: c in channels[..i] ==> RingOf(c) == Load(old(RingOf(c)), rows, c, node)
        invariant forall c :: c !in channels[..i] ==> RingOf(c) == old(RingOf(c))
      {
        LoadChannel(rows, channels[i], node);
        assert channels[..i + 1] == channels[..i] + [channels[i]];
      }
      assert channels[..|channels|] == channels;
    }
  }
}
