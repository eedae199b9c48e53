/**
 The idempotency interceptor: requests of any number of clients take the advisory lock of their key,
 look up a stored response, and then replay it, refuse, or run the handler and store its response in
 the handler's own transaction. The reference is a table that serves one request at a time and is
 never purged; the interleaved machine, purge included, is proved to behave like it.
 */
module Idempotency {
  import opened Options
  import opened Chars

  const HOUR: int := 3_600_000
  const TTL: int := 24 * HOUR

  /** (principal, key). */
  type Key = (string, string)
  type ClientId = nat

  /** What makes two requests the same: method, path and the canonical text of body and query. */
  datatype Fingerprint = Fingerprint(verb: string, path: string, canonical: seq<int>)
  datatype Request = Request(key: Key, finger: Fingerprint)
  datatype Response = Response(status: nat, body: string)
  datatype Row = Row(finger: Fingerprint, response: Response, expiresAt: int)
  type Table = map<Key, Row>

  datatype Outcome = Fresh(response: Response) | Replayed(response: Response) | Refused | Failed

  /** How the handler would end: with a response stored at some time, or with an error. */
  datatype Attempt = Works(response: Response, storedAt: int) | Throws

  // ---- the reference: one request at a time, nothing purged ------------------------------------

  /** A finished request: who sent it, when it looked up its key, how its handler ended, its answer. */
  datatype Op = Op(client: ClientId, request: Request, lookedUpAt: int, attempt: Attempt, outcome: Outcome)

  predicate LiveRow(table: Table, key: Key, now: int) {
    key in table && table[key].expiresAt > now
  }

  function Serve(table: Table, request: Request, now: int, attempt: Attempt): Outcome {
    if LiveRow(table, request.key, now) then
      if table[request.key].finger == request.finger then Replayed(table[request.key].response) else Refused
    else match attempt
      case Works(response, _) => Fresh(response)
      case Throws => Failed
  }

  function Stored(table: Table, request: Request, now: int, attempt: Attempt): Table {
    if LiveRow(table, request.key, now) || attempt.Throws? then table
    else table[request.key := Row(request.finger, attempt.response, attempt.storedAt + TTL)]
  }

  function Replay(log: seq<Op>): Table {
    if log == [] then map[]
    else
      var op := log[|log| - 1];
      Stored(Replay(log[..|log| - 1]), op.request, op.lookedUpAt, op.attempt)
  }

  /** When a request's part in the order of its key is over. */
  function EndOf(op: Op): int {
    if op.attempt.Works? then op.attempt.storedAt else op.lookedUpAt
  }

  /** The answer of the i-th request is the reference's. */
  predicate AnsweredAt(log: seq<Op>, i: nat)
    requires i < |log|
  {
    && log[i].outcome == Serve(Replay(log[..i]), log[i].request, log[i].lookedUpAt, log[i].attempt)
    && log[i].lookedUpAt <= EndOf(log[i])
  }

  predicate InOrder(log: seq<Op>, i: nat, j: nat)
    requires i < j < |log|
  {
    log[i].request.key == log[j].request.key ==> EndOf(log[i]) <= log[j].lookedUpAt
  }

  /** A serial history: every answer is the reference's, and requests of one key do not overlap. */
  ghost predicate Serial(log: seq<Op>) {
    && (forall i :: 0 <= i < |log| ==> AnsweredAt(log, i))
    && (forall i, j :: 0 <= i < j < |log| ==> InOrder(log, i, j))
  }

  /** The index of the last request of this key whose work committed, or -1. */
  function LastFresh(log: seq<Op>, key: Key): (r: int)
    ensures -1 <= r < |log|
  {
    if log == [] then -1
    else
      var op := log[|log| - 1];
      if op.request.key == key && op.outcome.Fresh? then |log| - 1 else LastFresh(log[..|log| - 1], key)
  }

  lemma SerialPrefix(log: seq<Op>, n: nat)
    requires Serial(log) && n <= |log|
    ensures Serial(log[..n])
  {
    forall i | 0 <= i < n ensures AnsweredAt(log[..n], i) {
      assert AnsweredAt(log, i) && log[..n][..i] == log[..i];
    }
    forall i, j | 0 <= i < j < n ensures InOrder(log[..n], i, j) {
      assert InOrder(log, i, j);
    }
  }

  /** The stored row of a key is always the response of its last committed request. */
  lemma {:induction false} StoredIffCommitted(log: seq<Op>, key: Key)
    requires Serial(log)
    ensures var i := LastFresh(log, key);
      && (key in Replay(log) <==> i >= 0)
      && (i >= 0 ==>
            && log[i].request.key == key && log[i].outcome.Fresh? && log[i].attempt.Works?
            && Replay(log)[key] == Row(log[i].request.finger, log[i].outcome.response, log[i].attempt.storedAt + TTL))
      && (forall j :: i < j < |log| && log[j].request.key == key ==> !log[j].outcome.Fresh?)
  {
    if log != [] {
      var n := |log| - 1;
      SerialPrefix(log, n);
      StoredIffCommitted(log[..n], key);
      assert AnsweredAt(log, n);
    }
  }

  /** Two requests whose work committed under one key store their responses at least 24 hours apart. */
  lemma {:induction false} CommitsADayApart(log: seq<Op>, i: nat, j: nat)
    requires Serial(log) && i < j < |log| && log[i].request.key == log[j].request.key
    requires log[i].outcome.Fresh? && log[j].outcome.Fresh?
    ensures log[i].attempt.Works? && log[j].attempt.Works?
    ensures log[j].attempt.storedAt - log[i].attempt.storedAt >= 24 * 3_600_000
    decreases j
  {
    SerialPrefix(log, j);
    StoredIffCommitted(log[..j], log[i].request.key);
    var m := LastFresh(log[..j], log[i].request.key);
    assert AnsweredAt(log, i) && AnsweredAt(log, j) && InOrder(log, i, j);
    assert log[..j][i] == log[i];
    assert i <= m && log[..j][m] == log[m];
    if i < m {
      CommitsADayApart(log, i, m);
    }
  }

  /**
   After a request's work committed, every later request with its key that looks up before the expiry
   gets the stored answer if it is the same request and is refused otherwise; no new work commits.
   */
  lemma {:induction false} AnswersUntilExpiry(log: seq<Op>, i: nat, j: nat)
    requires Serial(log) && i < j < |log| && log[i].request.key == log[j].request.key
    requires log[i].outcome.Fresh? && log[i].attempt.Works?
    requires log[j].lookedUpAt < log[i].attempt.storedAt + 24 * 3_600_000
    ensures log[j].outcome ==
      if log[j].request.finger == log[i].request.finger then Replayed(log[i].outcome.response) else Refused
    ensures Replay(log[..j + 1]) == Replay(log[..j])
  {
    SerialPrefix(log, j);
    StoredIffCommitted(log[..j], log[i].request.key);
    var m := LastFresh(log[..j], log[i].request.key);
    assert AnsweredAt(log, i) && AnsweredAt(log, j) && InOrder(log, i, j);
    assert log[..j][i] == log[i];
    assert i <= m && log[..j][m] == log[m] && InOrder(log, m, j);
    if i < m {
      CommitsADayApart(log, i, m);
    }
    assert AnsweredAt(log, j) && log[..j + 1][..j] == log[..j];
  }

  /**
   The whole of the answers, told from the history alone: the last committed request of the key decides
   until its expiry, and otherwise the request runs.
   */
  lemma AnswersFromHistory(log: seq<Op>, j: nat)
    requires Serial(log) && j < |log|
    ensures var op, i := log[j], LastFresh(log[..j], log[j].request.key);
      && (i >= 0 ==> log[i].attempt.Works? && log[i].outcome.Fresh?)
      && op.outcome ==
        if i >= 0 && op.lookedUpAt < log[i].attempt.storedAt + 24 * 3_600_000 then
          if log[i].request.finger == op.request.finger then Replayed(log[i].outcome.response) else Refused
        else if op.attempt.Works? then Fresh(op.attempt.response)
        else Failed
  {
    SerialPrefix(log, j);
    StoredIffCommitted(log[..j], log[j].request.key);
    assert AnsweredAt(log, j);
  }

  /** A failed attempt leaves the key as it was: free, if it was free. */
  lemma FailureFreesKey(log: seq<Op>, j: nat, again: Request, now: int, attempt: Attempt)
    requires Serial(log) && j < |log| && (log[j].outcome.Failed? || log[j].outcome.Refused?)
    ensures Replay(log[..j + 1]) == Replay(log[..j])
    ensures Serve(Replay(log[..j + 1]), again, now, attempt) == Serve(Replay(log[..j]), again, now, attempt)
  {
    assert AnsweredAt(log, j) && log[..j + 1][..j] == log[..j];
  }

  // ---- the interceptor ----------------------------------------------------------------------------

  predicate IsAlphanumeric(ch: char) {
    'A' <= ch <= 'Z' || 'a' <= ch <= 'z' || '0' <= ch <= '9'
  }

  predicate IsHex(ch: char) {
    'A' <= ch <= 'F' || 'a' <= ch <= 'f' || '0' <= ch <= '9'
  }

  predicate IsKey(key: string) {
    8 <= |key| <= 255 && forall ch :: ch in key ==> IsAlphanumeric(ch) || ch in "_.:-"
  }

  predicate IsUuid(key: string) {
    |key| == 36 && forall i :: 0 <= i < 36 ==> if i in {8, 13, 18, 23} then key[i] == '-' else IsHex(key[i])
  }

  const KEY_CHARACTERS: string := CAPITALS + SMALL + DIGITS + "_.:-"
  const HEX_CHARACTERS: string := "0123456789abcdefABCDEF"

  predicate Drawn(s: string, characters: string) {
    forall ch :: ch in s ==> ch in characters
  }

  lemma KeyCharactersAre(ch: char)
    ensures ch in KEY_CHARACTERS <==> IsAlphanumeric(ch) || ch in "_.:-"
  {
    CapitalsAre(ch);
    SmallAre(ch);
    DigitsAre(ch);
    InJoin(ch, CAPITALS, SMALL, DIGITS, "_.:-");
  }

  lemma HexCharactersAre(ch: char)
    ensures ch in HEX_CHARACTERS <==> IsHex(ch)
  {
  }

  /** A key is 8 to 255 letters, digits, underscores, points, colons and dashes. */
  lemma KeyIff(key: string)
    ensures IsKey(key) <==> 8 <= |key| <= 255 && Drawn(key, KEY_CHARACTERS)
  {
    forall ch ensures IsAlphanumeric(ch) || ch in "_.:-" <==> ch in KEY_CHARACTERS {
      KeyCharactersAre(ch);
    }
  }

  predicate HexGroup(s: string, n: nat) {
    |s| == n && Drawn(s, HEX_CHARACTERS)
  }

  /** A UUID is five groups of 8, 4, 4, 4 and 12 hexadecimal digits, joined by dashes, in either case. */
  ghost predicate GroupsOf(key: string, a: string, b: string, c: string, d: string, e: string) {
    && key == a + "-" + b + "-" + c + "-" + d + "-" + e
    && HexGroup(a, 8) && HexGroup(b, 4) && HexGroup(c, 4) && HexGroup(d, 4) && HexGroup(e, 12)
  }

  lemma SliceIsHex(key: string, i: nat, j: nat)
    requires i <= j <= |key| && forall k :: i <= k < j ==> IsHex(key[k])
    ensures Drawn(key[i..j], HEX_CHARACTERS)
  {
    forall ch | ch in key[i..j] ensures ch in HEX_CHARACTERS {
      HexCharactersAre(ch);
    }
  }

  lemma GroupIsHex(s: string, n: nat)
    requires HexGroup(s, n)
    ensures forall k :: 0 <= k < n ==> IsHex(s[k])
  {
    forall k | 0 <= k < n ensures IsHex(s[k]) {
      HexCharactersAre(s[k]);
    }
  }

  lemma UuidIff(key: string)
    ensures IsUuid(key) <==> exists a, b, c, d, e :: GroupsOf(key, a, b, c, d, e)
  {
    if IsUuid(key) {
      SliceIsHex(key, 0, 8);
      SliceIsHex(key, 9, 13);
      SliceIsHex(key, 14, 18);
      SliceIsHex(key, 19, 23);
      SliceIsHex(key, 24, 36);
      assert GroupsOf(key, key[..8], key[9..13], key[14..18], key[19..23], key[24..]);
    }
    if a, b, c, d, e :| GroupsOf(key, a, b, c, d, e) {
      GroupIsHex(a, 8);
      GroupIsHex(b, 4);
      GroupIsHex(c, 4);
      GroupIsHex(d, 4);
      GroupIsHex(e, 12);
    }
  }

  /** Every UUID is a key. */
  lemma UuidIsKey(key: string)
    requires IsUuid(key)
    ensures IsKey(key)
  {
    forall i | 0 <= i < 36 ensures IsAlphanumeric(key[i]) || key[i] in "_.:-" {}
  }

  const ANONYMOUS: string := "anonymous"

  datatype Reply = Unguarded | KeyRequired | InvalidKey | Answered(outcome: Outcome)

  class Interceptor {
    var table: Table

    constructor ()
      ensures table == map[]
    {
      table := map[];
    }

    /**
     One request with the lock held throughout: exactly the reference's answer and table. Without a
     usable key the table is not touched; an anonymous caller's key must be a UUID.
     */
    method Intercept(required: bool, caller: Option<string>, header: Option<string>, finger: Fingerprint,
                     now: int, attempt: Attempt) returns (reply: Reply)
      modifies this
      ensures reply.Answered? <==>
        header.Some? && IsKey(header.value) && (caller == None || caller == Some("anonymous") ==> IsUuid(header.value))
      ensures reply.Unguarded? || reply.KeyRequired? <==> header == None || header == Some("")
      ensures reply.Unguarded? ==> !required
      ensures reply.KeyRequired? ==> required
      ensures !reply.Answered? ==> table == old(table)
      ensures reply.Answered? ==>
        var request := Request((if caller.Some? then caller.value else "anonymous", header.value), finger);
        && reply.outcome == Serve(old(table), request, now, attempt)
        && table == Stored(old(table), request, now, attempt)
    {
      if header.None? || header.value == "" {
        return if required then KeyRequired else Unguarded;
      }
      var principal := if caller.Some? then caller.value else ANONYMOUS;
      if !IsKey(header.value) || (principal == ANONYMOUS && !IsUuid(header.value)) {
        return InvalidKey;
      }
      var key := (principal, header.value);
      if key in table && table[key].expiresAt > now {
        if table[key].finger != finger {
          return Answered(Refused);
        }
        return Answered(Replayed(table[key].response));
      }
      if attempt.Throws? {
        return Answered(Failed);
      }
      table := table[key := Row(finger, attempt.response, attempt.storedAt + TTL)];
      return Answered(Fresh(attempt.response));
    }

    /** purge-idempotency-keys: no request from now on can tell that it ran. */
    method Purge(now: int) returns (removed: nat)
      modifies this
      ensures removed == |old(table).Keys| - |table.Keys|
      ensures forall k :: k in table <==> k in old(table) && old(table)[k].expiresAt >= now
      ensures forall request, at, attempt :: at >= now ==>
        Serve(table, request, at, attempt) == Serve(old(table), request, at, attempt)
    {
      var gone := set k | k in table && table[k].expiresAt < now;
      assert |table.Keys - gone| == |table.Keys| - |gone|;
      removed := |gone|;
      ghost var kept := table.Keys - gone;
      table := map k | k in table && !(table[k].expiresAt < now) :: table[k];
      assert table.Keys == kept;
    }
  }
}
