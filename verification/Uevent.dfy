/**
  The uevent handler's scan over a received buffer: NUL-separated records up to the first
  empty one, stopping after the first Type-C record.
 */
module Uevent {
  const UEVENT_MSG_LEN: nat := 2048
  const NUL: char := '\0'

  const ADD := "add"
  const PARTNER := "-partner"
  const TYPEC := "DEVTYPE=typec_"

  /** What the handler does about a record. */
  datatype Response = PartnerAdded | TypecChanged | Ignored

  predicate StartsWith(s: string, p: string) {
    |p| <= |s| && s[..|p|] == p
  }

  predicate EndsWith(s: string, p: string) {
    |p| <= |s| && s[|s| - |p|..] == p
  }

  /** The dot of an ECMAScript expression matches anything but a line terminator. */
  predicate OneLine(s: string) {
    forall c <- s :: c != '\n' && c != '\r'
  }

  /** A full match of "(add)(.*)(-partner)". */
  ghost predicate Matches(s: string) {
    exists middle: string :: OneLine(middle) && s == ADD + middle + PARTNER
  }

  predicate IsPartnerAdded(s: string) {
    && StartsWith(s, ADD) && EndsWith(s, PARTNER)
    && |ADD| + |PARTNER| <= |s| && OneLine(s[|ADD|..|s| - |PARTNER|])
  }

  // ----- The records of a buffer -----

  /** e is the index of the first NUL at or after i, or the length. */
  ghost predicate IsTokenEnd(s: string, i: nat, e: nat) {
    && i <= e <= |s| && (e < |s| ==> s[e] == NUL)
    && forall k | i <= k < e :: s[k] != NUL
  }

  lemma TokenEndExists(s: string, i: nat)
    requires i <= |s|
    ensures exists e: nat :: IsTokenEnd(s, i, e)
    decreases |s| - i
  {
    if i == |s| || s[i] == NUL {
      assert IsTokenEnd(s, i, i);
    } else {
      TokenEndExists(s, i + 1);
      var e: nat :| IsTokenEnd(s, i + 1, e);
      assert IsTokenEnd(s, i, e);
    }
  }

  ghost function TokenEnd(s: string, i: nat): (e: nat)
    requires i <= |s|
    ensures IsTokenEnd(s, i, e)
  {
    TokenEndExists(s, i);
    var e: nat :| IsTokenEnd(s, i, e);
    e
  }

  /** The records from index cp on, which may stand one past the end. */
  ghost function RecordsFrom(s: string, cp: nat): (r: seq<string>)
    requires cp <= |s| + 1
    decreases |s| + 1 - cp
  {
    if cp >= |s| || s[cp] == NUL then []
    else
      var e := TokenEnd(s, cp);
      [s[cp..e]] + RecordsFrom(s, e + 1)
  }

  lemma RecordsStep(s: string, cp: nat, e: nat)
    requires cp < |s| && s[cp] != NUL && e == TokenEnd(s, cp)
    ensures RecordsFrom(s, cp) == [s[cp..e]] + RecordsFrom(s, e + 1)
  {}

  ghost function Records(s: string): seq<string> {
    RecordsFrom(s, 0)
  }

  /** The records the handler looks at. */
  function Visited(rs: seq<string>): (r: seq<string>)
  {
    if rs == [] then []
    else if StartsWith(rs[0], TYPEC) then [rs[0]]
    else [rs[0]] + Visited(rs[1..])
  }

  function ResponseTo(r: string): Response {
    if IsPartnerAdded(r) then PartnerAdded else if StartsWith(r, TYPEC) then TypecChanged else Ignored
  }

  /** One response per visited record, in order. */
  ghost predicate Answers(responses: seq<Response>, rs: seq<string>) {
    |responses| == |rs| && forall i | 0 <= i < |rs| :: responses[i] == ResponseTo(rs[i])
  }

  // ----- The scan -----

  /** One dereference of cp; the buffer ends with the two NULs at n and n + 1. */
  method Deref(msg: array<char>, n: nat, cp: nat) returns (c: char)
    requires cp <= n + 1 < msg.Length
    ensures c == msg[cp]
  {
    c := msg[cp];
  }

  /** The C string at cp. */
  method StringAt(msg: array<char>, n: nat, cp: nat) returns (s: string)
    requires cp <= n && n + 1 < msg.Length && msg[n] == NUL
    ensures s == msg[..n][cp..TokenEnd(msg[..n], cp)]
  {
    var e := cp;
    var c := Deref(msg, n, e);
    while c != NUL
      invariant cp <= e <= n && c == msg[e]
      invariant forall k | cp <= k < e :: msg[k] != NUL
      decreases n - e
    {
      e := e + 1;
      c := Deref(msg, n, e);
    }
    TokenEndIs(msg[..n], cp, e);
    s := msg[cp..e];
    assert s == msg[..n][cp..e];
  }

  /** while (*cp++) {}: the position after the next NUL. */
  method SkipString(msg: array<char>, n: nat, start: nat) returns (cp: nat)
    requires start <= n && n + 1 < msg.Length && msg[n] == NUL
    ensures cp == TokenEnd(msg[..n], start) + 1
  {
    cp := start;
    var c := Deref(msg, n, cp);
    cp := cp + 1;
    while c != NUL
      invariant start < cp <= n + 1 && c == msg[cp - 1]
      invariant forall k | start <= k < cp - 1 :: msg[k] != NUL
      decreases n - cp
    {
      c := Deref(msg, n, cp);
      cp := cp + 1;
    }
    TokenEndIs(msg[..n], start, cp - 1);
  }

  lemma TokenEndIs(s: string, i: nat, e: nat)
    requires IsTokenEnd(s, i, e)
    ensures TokenEnd(s, i) == e
  {}

  /** The records the scan visits from cp on. */
  ghost function ScanFrom(data: string, cp: nat): (r: seq<string>)
    requires cp <= |data| + 1
    decreases |data| + 1 - cp
  {
    if cp >= |data| || data[cp] == NUL then []
    else
      var e := TokenEnd(data, cp);
      var record := data[cp..e];
      [record] + if StartsWith(record, TYPEC) then [] else ScanFrom(data, e + 1)
  }

  lemma ScanStep(data: string, cp: nat) returns (rest: seq<string>)
    requires cp < |data| && data[cp] != NUL
    ensures var e := TokenEnd(data, cp);
            && ScanFrom(data, cp) == [data[cp..e]] + rest
            && rest == if StartsWith(data[cp..e], TYPEC) then [] else ScanFrom(data, e + 1)
  {
    hide StartsWith, TokenEnd;
    var e := TokenEnd(data, cp);
    rest := if StartsWith(data[cp..e], TYPEC) then [] else ScanFrom(data, e + 1);
  }

  lemma ScanEnd(data: string, cp: nat)
    requires cp <= |data| + 1 && (cp < |data| ==> data[cp] == NUL)
    ensures ScanFrom(data, cp) == [] && Visited(RecordsFrom(data, cp)) == []
  {}

  /** Scanning in place visits what a split into records would show. */
  lemma {:induction false} ScanIsVisited(data: string, cp: nat)
    requires cp <= |data| + 1
    ensures ScanFrom(data, cp) == Visited(RecordsFrom(data, cp))
    decreases |data| + 1 - cp
  {
    hide StartsWith, TokenEnd, Visited, ScanFrom, RecordsFrom;
    if cp < |data| && data[cp] != NUL {
      var e := TokenEnd(data, cp);
      var rest := ScanStep(data, cp);
      RecordsStep(data, cp, e);
      ScanIsVisited(data, e + 1);
      VisitedCons(data[cp..e], RecordsFrom(data, e + 1));
    } else {
      ScanEnd(data, cp);
    }
  }

  lemma VisitedCons(record: string, rest: seq<string>)
    ensures Visited([record] + rest) == [record] + if StartsWith(record, TYPEC) then [] else Visited(rest)
  {
    assert ([record] + rest)[1..] == rest;
  }

  /** The two tests on one record; a Type-C record ends the scan. */
  method HandleRecord(record: string) returns (response: Response, stop: bool)
    ensures response == ResponseTo(record) && stop == StartsWith(record, TYPEC)
  {
    PartnerIsNotTypec(record);
    if IsPartnerAdded(record) {
      return PartnerAdded, false;
    } else if StartsWith(record, TYPEC) {
      return TypecChanged, true;
    }
    return Ignored, false;
  }

  /** The responses are those to all but the rest. */
  ghost predicate Owes(responses: seq<Response>, all: seq<string>, rest: seq<string>) {
    exists visited :: Answers(responses, visited) && all == visited + rest
  }

  lemma OwesAll(all: seq<string>)
    ensures Owes([], all, all)
  {
    assert Answers([], []) && all == [] + all;
  }

  lemma OwesLess(responses: seq<Response>, all: seq<string>, response: Response, r: string, rest: seq<string>)
    requires Owes(responses, all, [r] + rest) && response == ResponseTo(r)
    ensures Owes(responses + [response], all, rest)
  {
    hide ResponseTo;
    var visited :| Answers(responses, visited) && all == visited + ([r] + rest);
    assert all == (visited + [r]) + rest;
    assert Answers(responses + [response], visited + [r]);
  }

  lemma OwesNothing(responses: seq<Response>, all: seq<string>)
    requires Owes(responses, all, [])
    ensures Answers(responses, all)
  {
    var visited :| Answers(responses, visited) && all == visited + [];
    assert all == visited;
  }

  /** The scan proper: every string up to an empty one or to the first Type-C record. */
  method ScanRecords(msg: array<char>, n: nat) returns (responses: seq<Response>)
    requires n + 1 < msg.Length && msg[n] == NUL && msg[n + 1] == NUL
    ensures Answers(responses, ScanFrom(msg[..n], 0))
  {
    hide StartsWith, ResponseTo, TokenEnd, Answers, Owes, ScanFrom;
    responses := [];
    ghost var data := msg[..n];
    ghost var all := ScanFrom(data, 0);
    OwesAll(all);
    var cp: nat := 0;
    var c := Deref(msg, n, cp);
    while c != NUL
      invariant cp <= n + 1 && c == msg[cp]
      invariant Owes(responses, all, ScanFrom(data, cp))
      decreases n + 1 - cp
    {
      var record := StringAt(msg, n, cp);
      var response, stop := HandleRecord(record);
      ghost var rest := ScanStep(data, cp);
      OwesLess(responses, all, response, record, rest);
      responses := responses + [response];
      if stop {
        OwesNothing(responses, all);
        return;
      }
      cp := SkipString(msg, n, cp);
      c := Deref(msg, n, cp);
    }
    ScanEnd(data, cp);
    OwesNothing(responses, all);
  }

  /**
    uevent_event after the receive: a missing or overlong message is dropped; otherwise the
    two NULs are stored and the responses are those to exactly the visited records of the
    received bytes.
   */
  method HandleMessage(msg: array<char>, n: int) returns (responses: seq<Response>)
    requires msg.Length == UEVENT_MSG_LEN + 2
    modifies msg
    ensures n <= 0 || n >= 2048 ==> responses == [] && msg[..] == old(msg[..])
    ensures 0 < n < 2048 ==> Answers(responses, Visited(Records(old(msg[..n]))))
  {
    responses := [];
    if n <= 0 {
      return;
    }
    if n >= UEVENT_MSG_LEN {
      return;
    }
    msg[n] := NUL;
    msg[n + 1] := NUL;
    responses := ScanRecords(msg, n);
    ScanIsVisited(msg[..n], 0);
    assert msg[..n] == old(msg[..n]);
  }

  lemma PartnerIsNotTypec(s: string)
    ensures IsPartnerAdded(s) ==> !StartsWith(s, TYPEC)
  {
    FirstChar(s, ADD);
    FirstChar(s, TYPEC);
  }

  lemma FirstChar(s: string, p: string)
    requires p != []
    ensures StartsWith(s, p) ==> s[0] == p[0]
  {
    if StartsWith(s, p) {
      assert s[..|p|][0] == s[0];
    }
  }

  // ----- What the scan means -----

  /** The test the handler makes is the regular expression's full match. */
  lemma {:induction false} MatchIff(s: string)
    ensures IsPartnerAdded(s) <==> Matches(s)
  {
    if IsPartnerAdded(s) {
      assert s == ADD + s[|ADD|..|s| - |PARTNER|] + PARTNER;
    }
    if Matches(s) {
      var middle: string :| OneLine(middle) && s == ADD + middle + PARTNER;
      assert s[..|ADD|] == ADD && s[|s| - |PARTNER|..] == PARTNER && s[|ADD|..|s| - |PARTNER|] == middle;
    }
  }

  /** The records that matter, by their texts. */
  lemma {:induction false} ResponsesByText(r: string)
    ensures ResponseTo(r) == PartnerAdded <==>
            exists middle: string :: r == "add" + middle + "-partner" && forall c <- middle :: c != '\n' && c != '\r'
    ensures ResponseTo(r) == TypecChanged <==> exists rest :: r == "DEVTYPE=typec_" + rest
  {
    MatchIff(r);
    assert IsPartnerAdded(r) <==> exists middle: string :: OneLine(middle) && r == ADD + middle + PARTNER;
    PartnerIsNotTypec(r);
    if StartsWith(r, TYPEC) {
      assert r == "DEVTYPE=typec_" + r[|TYPEC|..];
    }
    if exists rest :: r == "DEVTYPE=typec_" + rest {
      var rest :| r == "DEVTYPE=typec_" + rest;
      assert r[..|TYPEC|] == TYPEC;
    }
  }

  /** A record with a line terminator between its two ends is no partner record. */
  lemma {:induction false} LineTerminatorHides(middle: string)
    requires !OneLine(middle)
    ensures var r := ADD + middle + PARTNER;
            StartsWith(r, ADD) && EndsWith(r, PARTNER) && !Matches(r) && ResponseTo(r) == Ignored
  {
    var r := ADD + middle + PARTNER;
    assert r[..|ADD|] == ADD && r[|r| - |PARTNER|..] == PARTNER && r[|ADD|..|r| - |PARTNER|] == middle;
    MatchIff(r);
    FirstChar(r, ADD);
    FirstChar(r, TYPEC);
  }

  lemma {:induction false} NewlineIsNoMatch()
    ensures !Matches("add\n-partner")
  {
    assert '\n' in "\n" && "add\n-partner" == ADD + "\n" + PARTNER;
    LineTerminatorHides("\n");
  }

  /** A record that starts with "add" and ends with "-partner" has room for both. */
  lemma {:induction false} NoOverlap(s: string)
    requires StartsWith(s, ADD) && EndsWith(s, PARTNER)
    ensures |ADD| + |PARTNER| <= |s|
  {
    assert s[|s| - |PARTNER|..][0] == '-';
    assert s[..|ADD|] == [s[0], s[1], s[2]];
  }

  function Flatten(rs: seq<string>): string {
    if rs == [] then [] else rs[0] + ([NUL] + Flatten(rs[1..]))
  }

  lemma {:induction false} RecordsAfter(before: string, rs: seq<string>)
    requires forall r <- rs :: r != [] && NUL !in r
    ensures RecordsFrom(before + Flatten(rs), |before|) == rs
    decreases |rs|
  {
    if rs == [] {
      assert before + Flatten(rs) == before;
    } else {
      var r, rest := rs[0], rs[1..];
      assert r in rs && forall q <- rest :: q in rs;
      RecordsAfter(before + (r + [NUL]), rest);
      Regroup(before, r, Flatten(rest));
      RecordAfter(before, r, Flatten(rest));
      assert rs == [r] + rest;
    }
  }

  lemma Regroup(before: string, r: string, rest: string)
    ensures before + (r + ([NUL] + rest)) == before + (r + [NUL]) + rest
  {}

  lemma RecordAfter(before: string, r: string, rest: string)
    requires r != [] && NUL !in r
    ensures var next := before + (r + [NUL]);
            RecordsFrom(next + rest, |before|) == [r] + RecordsFrom(next + rest, |next|)
  {
    var s := before + (r + [NUL]) + rest;
    TokenAfter(s, before, r, rest);
    RecordsStep(s, |before|, |before| + |r|);
  }

  lemma TokenAfter(s: string, before: string, r: string, rest: string)
    requires r != [] && NUL !in r && s == before + (r + [NUL]) + rest
    ensures s[|before|] != NUL && TokenEnd(s, |before|) == |before| + |r| && s[|before|..|before| + |r|] == r
  {
    assert forall k | 0 <= k < |r| :: s[|before| + k] == r[k] && r[k] in r;
    assert forall m | |before| <= m < |before| + |r| :: s[m] == r[m - |before|];
    TokenEndIs(s, |before|, |before| + |r|);
  }

  /** A buffer of non-empty NUL-terminated records consists of exactly those records. */
  lemma {:induction false} RecordsOfFlatten(rs: seq<string>)
    requires forall r <- rs :: r != [] && NUL !in r
    ensures Records(Flatten(rs)) == rs
  {
    RecordsAfter([], rs);
    assert [] + Flatten(rs) == Flatten(rs);
  }

  /** The visited records are a prefix that ends with the first Type-C record, if there is one. */
  lemma {:induction false} VisitedIsPrefix(rs: seq<string>)
    ensures Visited(rs) <= rs
    ensures forall i | 0 <= i < |Visited(rs)| - 1 :: !StartsWith(rs[i], TYPEC)
    ensures Visited(rs) == rs || (Visited(rs) != [] && StartsWith(Visited(rs)[|Visited(rs)| - 1], TYPEC))
  {
    if rs != [] && !StartsWith(rs[0], TYPEC) {
      VisitedIsPrefix(rs[1..]);
      assert forall i | 1 <= i < |rs| :: rs[i] == rs[1..][i - 1];
    }
  }

  /** mPartnerUp is set exactly if some visited record announces a partner. */
  lemma {:induction false} PartnerUpIff(responses: seq<Response>, rs: seq<string>)
    requires Answers(responses, rs)
    ensures PartnerAdded in responses <==> exists r <- rs :: Matches(r)
  {
    if PartnerAdded in responses {
      var i :| 0 <= i < |responses| && responses[i] == PartnerAdded;
      MatchIff(rs[i]);
    }
    if exists r <- rs :: Matches(r) {
      var r :| r in rs && Matches(r);
      MatchIff(r);
      var i :| 0 <= i < |rs| && rs[i] == r;
      assert responses[i] == PartnerAdded;
    }
  }

  /** A Type-C record is acted on at most once, as the last of all; a partner record never is one. */
  lemma {:induction false} TypecIsLast(responses: seq<Response>, rs: seq<string>)
    requires Answers(responses, Visited(rs))
    ensures TypecChanged in responses <==> exists r <- rs :: StartsWith(r, TYPEC)
    ensures forall i | 0 <= i < |responses| - 1 :: responses[i] != TypecChanged
    ensures forall i | 0 <= i < |responses| && responses[i] == PartnerAdded :: !StartsWith(Visited(rs)[i], TYPEC)
  {
    hide Visited;
    VisitedIsPrefix(rs);
    var visited := Visited(rs);
    forall i | 0 <= i < |visited|
      ensures responses[i] == TypecChanged <==> StartsWith(rs[i], TYPEC)
    {
      assert visited[i] == rs[i];
      PartnerIsNotTypec(rs[i]);
    }
    if exists r <- rs :: StartsWith(r, TYPEC) {
      var r :| r in rs && StartsWith(r, TYPEC);
      var k :| 0 <= k < |rs| && rs[k] == r;
      if visited == rs {
        assert responses[k] == TypecChanged;
      } else {
        assert responses[|visited| - 1] == TypecChanged;
      }
    }
    if TypecChanged in responses {
      var i :| 0 <= i < |responses| && responses[i] == TypecChanged;
      assert rs[i] in rs;
    }
  }
}
