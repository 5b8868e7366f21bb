/**
The device authorization grant: sections 3.2 to 3.5 of RFC 8628, with the code challenge of section 4.6 of RFC 7636.

Any number of calls run side by side. Every database statement is one step, and a call decides on the copy of the row
it read earlier, which may be out of date. A run is a sequence of actions; the theorems hold for every run.
*/
module DeviceFlow {
  import opened Common
  import Base64Url

  datatype Uuid = Uuid(text: string)

  /** A row of `device_codes`; the table is keyed by the unique device code. */
  datatype Row = Row(clientId: string, userCode: string, challenge: string, challengeMethod: string,
                     expiresAt: int, verified: bool, exchanged: bool, userId: Option<Uuid>)

  type Table = map<string, Row>

  datatype CodeRequest = CodeRequest(clientId: string, challenge: string, challengeMethod: string)
  datatype TokenRequest = TokenRequest(deviceCode: string, clientId: string, codeVerifier: string)
  datatype Token = Token(userId: Uuid)

  datatype Error =
    | Validation(field: string) | Internal | TokenInvalid | TokenExpired | Pending | NotFound | Conflict | Unauthorized

  /** SHA-256 as an arbitrary function from text to bytes. */
  type Hash = string -> seq<Base64Url.Byte>

  const CODE_LIFETIME: int := 900

  // ---------------------------------------------------------------------------------------------
  // Code challenges

  function ComputeCodeChallenge(verifier: string, sha: Hash): string {
    Base64Url.EncodeRaw(sha(verifier))
  }

  predicate VerifyPkce(verifier: string, challenge: string, challengeMethod: string, sha: Hash) {
    if challengeMethod == "" || challengeMethod == "S256" then ComputeCodeChallenge(verifier, sha) == challenge
    else challengeMethod == "plain" && verifier == challenge
  }

  /** A hashed challenge admits exactly the verifiers with the same digest as the one it was made from. */
  lemma PkceAdmitsExactlySameDigest(made: string, shown: string, challengeMethod: string, sha: Hash)
    requires challengeMethod == "" || challengeMethod == "S256"
    ensures VerifyPkce(shown, ComputeCodeChallenge(made, sha), challengeMethod, sha) <==> sha(shown) == sha(made)
  {
    if VerifyPkce(shown, ComputeCodeChallenge(made, sha), challengeMethod, sha) {
      Base64Url.EncodeRawInjective(sha(shown), sha(made));
    }
  }

  /** A plain challenge admits exactly itself, and an unknown method admits nothing. */
  lemma OtherChallengeMethods(shown: string, challenge: string, challengeMethod: string, sha: Hash)
    ensures VerifyPkce(shown, challenge, "plain", sha) <==> shown == challenge
    ensures challengeMethod !in ["", "S256", "plain"] ==> !VerifyPkce(shown, challenge, challengeMethod, sha)
  {}

  /** A hashed challenge is the unpadded encoding of the digest: it decodes to exactly the digest. */
  lemma ChallengeDecodesToDigest(verifier: string, sha: Hash)
    ensures Base64Url.Decode(Base64Url.Repad(ComputeCodeChallenge(verifier, sha))) == Some(sha(verifier))
  {
    Base64Url.DecodeRecovers(sha(verifier));
  }

  // ---------------------------------------------------------------------------------------------
  // Statements on the table

  /** INSERT; both code columns are unique. */
  function Insert(rows: Table, code: string, row: Row): Option<Table> {
    if code in rows || exists c :: c in rows && rows[c].userCode == row.userCode then None
    else Some(rows[code := row])
  }

  /** UPDATE ... WHERE device_code = ? AND verified = false; the second result is the number of rows affected. */
  function VerifiedMark(rows: Table, code: string, user: Uuid): (Table, nat) {
    if code in rows && !rows[code].verified
    then (rows[code := rows[code].(verified := true, userId := Some(user))], 1)
    else (rows, 0)
  }

  /** UPDATE ... WHERE device_code = ? AND exchanged = false. */
  function ExchangedMark(rows: Table, code: string): (Table, nat) {
    if code in rows && !rows[code].exchanged
    then (rows[code := rows[code].(exchanged := true)], 1)
    else (rows, 0)
  }

  function Lookup(rows: Table, code: string): Option<Row> {
    if code in rows then Some(rows[code]) else None
  }

  /** What ExchangeToken decides about the copy of the row it holds; None means it goes on to MarkExchanged. */
  function Refusal(row: Row, req: TokenRequest, now: int, sha: Hash): Option<Error> {
    if now > row.expiresAt then Some(TokenExpired)
    else if row.clientId != req.clientId then Some(TokenInvalid)
    else if !row.verified then Some(Pending)
    else if row.userId.None? then Some(Pending)
    else if row.exchanged then Some(TokenInvalid)
    else if row.challenge != "" && req.codeVerifier == "" then Some(Validation("code_verifier"))
    else if row.challenge != "" && !VerifyPkce(req.codeVerifier, row.challenge, row.challengeMethod, sha) then
      Some(TokenInvalid)
    else None
  }

  // ---------------------------------------------------------------------------------------------
  // Calls in progress

  /** What the database answers: the statement ran; it was refused; or it ran but its answer was lost. */
  datatype Db = Ran | Refused | ReplyLost

  /** What follows a won exchange: tokens, no such user, or a signing failure. */
  datatype Minting = Minted | UserMissing | SigningFailed

  /** A call with its local variables. `hit` records whether a verifier's UPDATE changed the row, a number the
      service never looks at. */
  datatype Call =
    | ExchangeStarted(req: TokenRequest)
    | ExchangeRead(req: TokenRequest, snap: Row)
    | ExchangePassed(req: TokenRequest, snap: Row, checkedAt: int)
    | ExchangeWon(req: TokenRequest, snap: Row, checkedAt: int)
    | ExchangeOk(req: TokenRequest, snap: Row, checkedAt: int, token: Token)
    | ExchangeFailed(req: TokenRequest, error: Error)
    | VerifyStarted(code: string, user: Uuid)
    | VerifyRead(code: string, user: Uuid, snap: Row)
    | VerifyOk(code: string, user: Uuid, hit: bool)
    | VerifyFailed(code: string, user: Uuid, error: Error, hit: bool)

  datatype System = System(now: int, rows: Table, calls: seq<Call>)

  datatype Action =
    | Tick(seconds: nat)
    | Generate(request: CodeRequest, deviceCode: string, userCode: string, drawnAt: int, db: Db)
    | StartExchange(req: TokenRequest)
    | StartVerify(code: string, user: Uuid)
    | Advance(call: nat, db: Db, minting: Minting)

  function NewRow(request: CodeRequest, userCode: string, drawnAt: int): Row {
    Row(request.clientId, userCode, request.challenge, request.challengeMethod, drawnAt + CODE_LIFETIME, false, false, None)
  }

  /** The next atomic step of one call. */
  function AdvanceCall(rows: Table, now: int, c: Call, db: Db, minting: Minting, sha: Hash): (Table, Call) {
    match c
    case ExchangeStarted(req) =>
      if req.deviceCode == "" then (rows, ExchangeFailed(req, Validation("device_code")))
      else if req.clientId == "" then (rows, ExchangeFailed(req, Validation("client_id")))
      else if db != Ran then (rows, ExchangeFailed(req, Internal))
      else (match Lookup(rows, req.deviceCode)
            case None => (rows, ExchangeFailed(req, TokenInvalid))
            case Some(row) => (rows, ExchangeRead(req, row)))
    case ExchangeRead(req, snap) =>
      (match Refusal(snap, req, now, sha)
       case Some(error) => (rows, ExchangeFailed(req, error))
       case None => (rows, ExchangePassed(req, snap, now)))
    case ExchangePassed(req, snap, checkedAt) =>
      if db == Refused then (rows, ExchangeFailed(req, Internal))
      else
        var (rows', affected) := ExchangedMark(rows, req.deviceCode);
        (rows', if db == ReplyLost || affected == 0 then ExchangeFailed(req, Internal) else ExchangeWon(req, snap, checkedAt))
    case ExchangeWon(req, snap, checkedAt) =>
      (rows, match minting
             case UserMissing => ExchangeFailed(req, Unauthorized)
             case SigningFailed => ExchangeFailed(req, Internal)
             case Minted =>
               if snap.userId.Some? then ExchangeOk(req, snap, checkedAt, Token(snap.userId.value))
               else ExchangeFailed(req, TokenInvalid))
    case VerifyStarted(code, user) =>
      if db != Ran then (rows, VerifyFailed(code, user, Internal, false))
      else (match Lookup(rows, code)
            case None => (rows, VerifyFailed(code, user, NotFound, false))
            case Some(row) =>
              (rows, if row.verified then VerifyFailed(code, user, Conflict, false) else VerifyRead(code, user, row)))
    case VerifyRead(code, user, snap) =>
      if db == Refused then (rows, VerifyFailed(code, user, Internal, false))
      else
        var (rows', affected) := VerifiedMark(rows, code, user);
        (rows', if db == ReplyLost then VerifyFailed(code, user, Internal, affected == 1)
                else VerifyOk(code, user, affected == 1))
    case _ => (rows, c)
  }

  function Step(s: System, a: Action, sha: Hash): System {
    match a
    case Tick(seconds) => s.(now := s.now + seconds)
    case Generate(request, deviceCode, userCode, drawnAt, db) =>
      if request.clientId == "" || db == Refused then s
      else (match Insert(s.rows, deviceCode, NewRow(request, userCode, drawnAt))
            case None => s
            case Some(rows) => s.(rows := rows))
    case StartExchange(req) => s.(calls := s.calls + [ExchangeStarted(req)])
    case StartVerify(code, user) => s.(calls := s.calls + [VerifyStarted(code, user)])
    case Advance(i, db, minting) =>
      if i >= |s.calls| then s
      else
        var (rows', c') := AdvanceCall(s.rows, s.now, s.calls[i], db, minting, sha);
        s.(rows := rows', calls := s.calls[i := c'])
  }

  function Run(s: System, actions: seq<Action>, sha: Hash): System
    decreases |actions|
  {
    if actions == [] then s else Run(Step(s, actions[0], sha), actions[1..], sha)
  }

  function Initial(now: int): System {
    System(now, map[], [])
  }

  // ---------------------------------------------------------------------------------------------
  // The invariant

  /** `row` is `snap` or something it may have become: the columns written at creation stay, the flags only rise, and
      a bound user stays bound. */
  predicate Later(snap: Row, row: Row) {
    && row.clientId == snap.clientId && row.userCode == snap.userCode && row.expiresAt == snap.expiresAt
    && row.challenge == snap.challenge && row.challengeMethod == snap.challengeMethod
    && (snap.verified ==> row.verified && row.userId == snap.userId)
    && (snap.exchanged ==> row.exchanged)
  }

  predicate RowOk(row: Row) {
    && (row.verified <==> row.userId.Some?)
    && (row.exchanged ==> row.verified)
  }

  /** The call has won the exchange of `code`. */
  predicate Won(c: Call, code: string) {
    (c.ExchangeWon? || c.ExchangeOk?) && c.req.deviceCode == code
  }

  /** The call's UPDATE is the one that bound a user to `code`. */
  predicate Bound(c: Call, code: string) {
    (c.VerifyOk? || c.VerifyFailed?) && c.hit && c.code == code
  }

  /** What a call's local variables say about the present table. */
  predicate CallOk(rows: Table, now: int, c: Call, sha: Hash) {
    match c
    case ExchangeRead(req, snap) =>
      && req.deviceCode != "" && req.clientId != ""
      && req.deviceCode in rows && Later(snap, rows[req.deviceCode])
    case ExchangePassed(req, snap, checkedAt) =>
      && req.deviceCode in rows && Later(snap, rows[req.deviceCode])
      && checkedAt <= now && Refusal(snap, req, checkedAt, sha) == None
    case ExchangeWon(req, snap, checkedAt) =>
      && req.deviceCode in rows && Later(snap, rows[req.deviceCode]) && rows[req.deviceCode].exchanged
      && checkedAt <= now && Refusal(snap, req, checkedAt, sha) == None
    case ExchangeOk(req, snap, checkedAt, token) =>
      && req.deviceCode in rows && Later(snap, rows[req.deviceCode]) && rows[req.deviceCode].exchanged
      && checkedAt <= now && Refusal(snap, req, checkedAt, sha) == None
      && token == Token(snap.userId.value)
    case VerifyRead(code, user, snap) => code in rows && Later(snap, rows[code])
    case VerifyOk(code, user, hit) =>
      code in rows && rows[code].verified && (hit ==> rows[code].userId == Some(user))
    case VerifyFailed(code, user, error, hit) => hit ==> code in rows && rows[code].userId == Some(user)
    case _ => true
  }

  ghost predicate Invariant(s: System, sha: Hash) {
    && (forall code :: code in s.rows ==> RowOk(s.rows[code]))
    && (forall i :: 0 <= i < |s.calls| ==> CallOk(s.rows, s.now, s.calls[i], sha))
    && (forall i, j, code :: 0 <= i < |s.calls| && 0 <= j < |s.calls| && Won(s.calls[i], code) && Won(s.calls[j], code)
          ==> i == j)
    && (forall i, j, code :: 0 <= i < |s.calls| && 0 <= j < |s.calls| && Bound(s.calls[i], code) && Bound(s.calls[j], code)
          ==> i == j)
    && (forall code :: code in s.rows && s.rows[code].verified ==> exists i :: 0 <= i < |s.calls| && Bound(s.calls[i], code))
  }

  ghost predicate Grown(before: Table, after: Table) {
    forall code :: code in before ==> code in after && Later(before[code], after[code])
  }

  lemma CallOkGrows(rows: Table, now: int, rows': Table, now': int, c: Call, sha: Hash)
    requires CallOk(rows, now, c, sha) && Grown(rows, rows') && now <= now'
    requires forall code :: code in rows ==> RowOk(rows[code])
    ensures CallOk(rows', now', c, sha)
  {}

  /** What one step of one call may do to the table and to its own variables. */
  ghost predicate Effect(rows: Table, now: int, c: Call, rows': Table, c': Call, sha: Hash) {
    && (forall code :: code in rows' ==> code in rows && RowOk(rows'[code]))
    && Grown(rows, rows')
    && CallOk(rows', now, c', sha)
    && (forall code :: Won(c', code) && !Won(c, code) ==> code in rows && !rows[code].exchanged)
    && (forall code :: Bound(c', code) && !Bound(c, code) ==> code in rows && !rows[code].verified)
    && (forall code :: Bound(c, code) ==> Bound(c', code))
    && (forall code :: code in rows && rows'[code].verified && !rows[code].verified ==> Bound(c', code))
  }

  lemma PassedIsBound(rows: Table, now: int, c: Call, sha: Hash)
    requires CallOk(rows, now, c, sha) && (c.ExchangePassed? || c.ExchangeWon?)
    ensures c.snap.verified && c.snap.userId.Some?
  {}

  lemma LookupFinds(rows: Table, code: string)
    ensures Lookup(rows, code).Some? ==> code in rows && Later(Lookup(rows, code).value, rows[code])
  {}

  lemma ExchangeMarkEffect(rows: Table, now: int, c: Call, db: Db, minting: Minting, sha: Hash)
    requires forall code :: code in rows ==> RowOk(rows[code])
    requires CallOk(rows, now, c, sha) && c.ExchangePassed?
    ensures var (rows', c') := AdvanceCall(rows, now, c, db, minting, sha); Effect(rows, now, c, rows', c', sha)
  {
    // the snapshot was verified, so the row is: exchanging it keeps `exchanged ==> verified`
    hide Refusal, VerifyPkce;
    PassedIsBound(rows, now, c, sha);
    assert rows[c.req.deviceCode].verified;
  }

  lemma VerifyMarkEffect(rows: Table, now: int, c: Call, db: Db, minting: Minting, sha: Hash)
    requires forall code :: code in rows ==> RowOk(rows[code])
    requires CallOk(rows, now, c, sha) && c.VerifyRead?
    ensures var (rows', c') := AdvanceCall(rows, now, c, db, minting, sha); Effect(rows, now, c, rows', c', sha)
  {}

  lemma ReadingCallOk(rows: Table, now: int, c: Call, db: Db, minting: Minting, sha: Hash)
    requires CallOk(rows, now, c, sha) && !c.ExchangePassed? && !c.VerifyRead?
    ensures var (rows', c') := AdvanceCall(rows, now, c, db, minting, sha); rows' == rows && CallOk(rows, now, c', sha)
  {
    hide Refusal, Later, Lookup;
    if c.ExchangeWon? { PassedIsBound(rows, now, c, sha); }
    if c.ExchangeStarted? || c.VerifyStarted? { LookupFinds(rows, if c.ExchangeStarted? then c.req.deviceCode else c.code); }
  }

  lemma ReadingEffect(rows: Table, now: int, c: Call, db: Db, minting: Minting, sha: Hash)
    requires forall code :: code in rows ==> RowOk(rows[code])
    requires CallOk(rows, now, c, sha) && !c.ExchangePassed? && !c.VerifyRead?
    ensures var (rows', c') := AdvanceCall(rows, now, c, db, minting, sha);
            rows' == rows && Effect(rows, now, c, rows', c', sha)
  {
    hide AdvanceCall, CallOk, RowOk, Won, Bound;
    ReadingCallOk(rows, now, c, db, minting, sha);
    ReadingWinsNothing(rows, now, c, db, minting, sha);
  }

  lemma ReadingWinsNothing(rows: Table, now: int, c: Call, db: Db, minting: Minting, sha: Hash)
    requires !c.ExchangePassed? && !c.VerifyRead?
    ensures var c' := AdvanceCall(rows, now, c, db, minting, sha).1;
            forall code :: (Won(c', code) ==> Won(c, code)) && (Bound(c', code) <==> Bound(c, code))
  {
    hide Refusal, Lookup;
  }

  lemma AdvanceEffect(rows: Table, now: int, c: Call, db: Db, minting: Minting, sha: Hash)
    requires forall code :: code in rows ==> RowOk(rows[code])
    requires CallOk(rows, now, c, sha)
    ensures var (rows', c') := AdvanceCall(rows, now, c, db, minting, sha); Effect(rows, now, c, rows', c', sha)
  {
    if c.ExchangePassed? { ExchangeMarkEffect(rows, now, c, db, minting, sha); }
    else if c.VerifyRead? { VerifyMarkEffect(rows, now, c, db, minting, sha); }
    else { ReadingEffect(rows, now, c, db, minting, sha); }
  }

  lemma OneWinner(s: System, i: nat, rows': Table, c': Call, sha: Hash)
    requires Invariant(s, sha) && i < |s.calls| && Effect(s.rows, s.now, s.calls[i], rows', c', sha)
    ensures var calls' := s.calls[i := c'];
            forall j, k, code :: 0 <= j < |calls'| && 0 <= k < |calls'| && Won(calls'[j], code) && Won(calls'[k], code) ==> j == k
  {
    // a call that has just won found the row unexchanged, while any earlier winner had exchanged it
    forall k, code | 0 <= k < |s.calls| && Won(s.calls[k], code)
      ensures code in s.rows && s.rows[code].exchanged
    {
      assert CallOk(s.rows, s.now, s.calls[k], sha);
    }
  }

  lemma BoundIsVerified(s: System, sha: Hash)
    requires Invariant(s, sha)
    ensures forall k, code :: 0 <= k < |s.calls| && Bound(s.calls[k], code) ==> code in s.rows && s.rows[code].verified
  {
    forall k, code | 0 <= k < |s.calls| && Bound(s.calls[k], code)
      ensures code in s.rows && s.rows[code].verified
    {
      assert CallOk(s.rows, s.now, s.calls[k], sha);
      assert RowOk(s.rows[code]);
    }
  }

  lemma OneBinding(s: System, i: nat, rows': Table, c': Call, sha: Hash)
    requires Invariant(s, sha) && i < |s.calls| && Effect(s.rows, s.now, s.calls[i], rows', c', sha)
    ensures var calls' := s.calls[i := c'];
            && (forall j, k, code :: 0 <= j < |calls'| && 0 <= k < |calls'| && Bound(calls'[j], code) && Bound(calls'[k], code)
                  ==> j == k)
            && (forall code :: code in rows' && rows'[code].verified ==> exists k :: 0 <= k < |calls'| && Bound(calls'[k], code))
  {
    hide CallOk, RowOk, Later, Refusal;
    var calls' := s.calls[i := c'];
    BoundIsVerified(s, sha);
    forall code | code in rows' && rows'[code].verified ensures exists k :: 0 <= k < |calls'| && Bound(calls'[k], code) {
      if s.rows[code].verified {
        var k :| 0 <= k < |s.calls| && Bound(s.calls[k], code);
        assert Bound(calls'[k], code);
      } else {
        assert Bound(calls'[i], code);
      }
    }
  }

  lemma AdvanceKeepsInvariant(s: System, i: nat, rows': Table, c': Call, sha: Hash)
    requires Invariant(s, sha) && i < |s.calls| && Effect(s.rows, s.now, s.calls[i], rows', c', sha)
    ensures Invariant(s.(rows := rows', calls := s.calls[i := c']), sha)
  {
    var calls' := s.calls[i := c'];
    forall k | 0 <= k < |calls'| ensures CallOk(rows', s.now, calls'[k], sha) {
      if k != i { CallOkGrows(s.rows, s.now, rows', s.now, s.calls[k], sha); }
    }
    OneWinner(s, i, rows', c', sha);
    OneBinding(s, i, rows', c', sha);
  }

  lemma StepKeepsInvariant(s: System, a: Action, sha: Hash)
    requires Invariant(s, sha)
    ensures Invariant(Step(s, a, sha), sha)
    ensures Grown(s.rows, Step(s, a, sha).rows)
  {
    hide AdvanceCall, CallOk;
    match a
    case Advance(i, db, minting) =>
      if i < |s.calls| {
        var (rows', c') := AdvanceCall(s.rows, s.now, s.calls[i], db, minting, sha);
        AdvanceEffect(s.rows, s.now, s.calls[i], db, minting, sha);
        AdvanceKeepsInvariant(s, i, rows', c', sha);
      }
    case _ =>
      OtherStepKeepsInvariant(s, a, sha);
  }

  lemma OtherStepKeepsInvariant(s: System, a: Action, sha: Hash)
    requires Invariant(s, sha) && !a.Advance?
    ensures Invariant(Step(s, a, sha), sha)
    ensures Grown(s.rows, Step(s, a, sha).rows)
  {
    hide AdvanceCall;
    var t := Step(s, a, sha);
    forall k | 0 <= k < |s.calls| ensures CallOk(t.rows, t.now, s.calls[k], sha) {
      CallOkGrows(s.rows, s.now, t.rows, t.now, s.calls[k], sha);
    }
    forall code | code in t.rows && t.rows[code].verified ensures exists k :: 0 <= k < |t.calls| && Bound(t.calls[k], code) {
      var k :| 0 <= k < |s.calls| && Bound(s.calls[k], code);
      assert Bound(t.calls[k], code);
    }
  }

  lemma {:induction false} RunKeepsInvariant(s: System, actions: seq<Action>, sha: Hash)
    requires Invariant(s, sha)
    ensures Invariant(Run(s, actions, sha), sha)
    ensures Grown(s.rows, Run(s, actions, sha).rows)
    decreases |actions|
  {
    if actions != [] {
      StepKeepsInvariant(s, actions[0], sha);
      RunKeepsInvariant(Step(s, actions[0], sha), actions[1..], sha);
    }
  }

  // ---------------------------------------------------------------------------------------------
  // Safety over every run

  /** However calls interleave, at most one exchange of a device code returns tokens. */
  lemma AtMostOneToken(start: int, actions: seq<Action>, sha: Hash, i: nat, j: nat)
    ensures var s := Run(Initial(start), actions, sha);
            i < |s.calls| && j < |s.calls| && s.calls[i].ExchangeOk? && s.calls[j].ExchangeOk? ==>
              s.calls[i].req.deviceCode == s.calls[j].req.deviceCode ==> i == j
  {
    RunKeepsInvariant(Initial(start), actions, sha);
    var s := Run(Initial(start), actions, sha);
    if i < |s.calls| && s.calls[i].ExchangeOk? {
      assert Won(s.calls[i], s.calls[i].req.deviceCode);
    }
  }

  /** A returned token is for the user bound to the code; exactly that user's own verification bound the code; the
      request came from the client that created the code, passed an expiry check, and met the stored challenge. */
  lemma TokenIsEarned(start: int, actions: seq<Action>, sha: Hash, i: nat)
    ensures var s := Run(Initial(start), actions, sha);
            i < |s.calls| && s.calls[i].ExchangeOk? ==>
              var call := s.calls[i]; var code := call.req.deviceCode;
              && code in s.rows && s.rows[code].verified && s.rows[code].exchanged
              && s.rows[code].userId == Some(call.token.userId)
              && (exists k :: 0 <= k < |s.calls| && Bound(s.calls[k], code) && s.calls[k].user == call.token.userId)
              && call.req.clientId == s.rows[code].clientId
              && call.checkedAt <= s.rows[code].expiresAt && call.checkedAt <= s.now
              && (s.rows[code].challenge != "" ==>
                    call.req.codeVerifier != ""
                    && VerifyPkce(call.req.codeVerifier, s.rows[code].challenge, s.rows[code].challengeMethod, sha))
  {
    RunKeepsInvariant(Initial(start), actions, sha);
    var s := Run(Initial(start), actions, sha);
    if i < |s.calls| && s.calls[i].ExchangeOk? {
      var call := s.calls[i];
      var code := call.req.deviceCode;
      assert CallOk(s.rows, s.now, call, sha);
      var k :| 0 <= k < |s.calls| && Bound(s.calls[k], code);
      assert CallOk(s.rows, s.now, s.calls[k], sha);
    }
  }

  lemma {:induction false} RunConcat(s: System, a: seq<Action>, b: seq<Action>, sha: Hash)
    ensures Run(s, a + b, sha) == Run(Run(s, a, sha), b, sha)
    decreases |a|
  {
    hide Step;
    if a == [] {
      assert a + b == b;
    } else {
      assert (a + b)[1..] == a[1..] + b;
      RunConcat(Step(s, a[0], sha), a[1..], b, sha);
    }
  }

  /** Action k of the run is an accepted request for this code. */
  predicate Creates(start: int, actions: seq<Action>, sha: Hash, k: nat, code: string)
    requires k < |actions|
  {
    var s := Run(Initial(start), actions[..k], sha);
    && actions[k].Generate? && actions[k].deviceCode == code
    && code !in s.rows && code in Step(s, actions[k], sha).rows
  }

  /** Every stored code comes from a request of the run. */
  lemma {:induction false} CodesComeFromRequests(start: int, actions: seq<Action>, sha: Hash, code: string) returns (k: nat)
    requires code in Run(Initial(start), actions, sha).rows
    ensures k < |actions| && Creates(start, actions, sha, k, code)
    decreases |actions|
  {
    hide AdvanceCall;
    assert Run(Initial(start), [], sha).rows == map[];
    var n := |actions| - 1;
    var s := Run(Initial(start), actions[..n], sha);
    RunConcat(Initial(start), actions[..n], [actions[n]], sha);
    assert actions == actions[..n] + [actions[n]] && Run(s, [actions[n]], sha) == Run(Step(s, actions[n], sha), [], sha);
    if code in s.rows {
      k := CodesComeFromRequests(start, actions[..n], sha, code);
      assert actions[..n][..k] == actions[..k];
    } else {
      k := n;
      if actions[n].Advance? && actions[n].call < |s.calls| { AdvanceAddsNoCode(s, actions[n], sha); }
    }
  }

  lemma AdvanceAddsNoCode(s: System, a: Action, sha: Hash)
    requires a.Advance? && a.call < |s.calls|
    ensures Step(s, a, sha).rows.Keys == s.rows.Keys
  {
    hide Refusal;
  }

  /** A returned token answers the request that created its code: the same client, in time, and with a verifier for the
      challenge of that request, if it had one. */
  lemma TokenAnswersRequest(start: int, actions: seq<Action>, sha: Hash, k: nat, i: nat)
    requires k < |actions| && i < |Run(Initial(start), actions, sha).calls|
    requires Run(Initial(start), actions, sha).calls[i].ExchangeOk?
    requires Creates(start, actions, sha, k, Run(Initial(start), actions, sha).calls[i].req.deviceCode)
    ensures var call, request := Run(Initial(start), actions, sha).calls[i], actions[k].request;
            && call.req.clientId == request.clientId
            && call.checkedAt <= actions[k].drawnAt + 900
            && (request.challenge != "" ==>
                  call.req.codeVerifier != ""
                  && VerifyPkce(call.req.codeVerifier, request.challenge, request.challengeMethod, sha))
  {
    var code := Run(Initial(start), actions, sha).calls[i].req.deviceCode;
    var s := Run(Initial(start), actions[..k], sha);
    var t := Step(s, actions[k], sha);
    assert t.rows[code].clientId == actions[k].request.clientId && t.rows[code].expiresAt == actions[k].drawnAt + 900;
    assert t.rows[code].challenge == actions[k].request.challenge;
    assert t.rows[code].challengeMethod == actions[k].request.challengeMethod;
    assert actions == actions[..k] + ([actions[k]] + actions[k + 1..]);
    RunConcat(Initial(start), actions[..k], [actions[k]] + actions[k + 1..], sha);
    assert ([actions[k]] + actions[k + 1..])[1..] == actions[k + 1..];
    assert Run(Initial(start), actions, sha) == Run(t, actions[k + 1..], sha);
    RunKeepsInvariant(Initial(start), actions[..k], sha);
    StepKeepsInvariant(s, actions[k], sha);
    RunKeepsInvariant(t, actions[k + 1..], sha);
    TokenIsEarned(start, actions, sha, i);
    hide Run, Step, Invariant;
    assert Later(t.rows[code], Run(Initial(start), actions, sha).rows[code]);
  }

  /** In every reachable state: exchanged implies verified, and verified means that a user is bound. */
  lemma ReachableRowsAreWellFormed(start: int, actions: seq<Action>, sha: Hash, code: string)
    requires code in Run(Initial(start), actions, sha).rows
    ensures var row := Run(Initial(start), actions, sha).rows[code];
            (row.exchanged ==> row.verified) && (row.verified <==> row.userId.Some?)
  {
    RunKeepsInvariant(Initial(start), actions, sha);
    assert RowOk(Run(Initial(start), actions, sha).rows[code]);
  }

  /** Once a user is bound, no continuation of the run unbinds or rebinds the code, or un-exchanges it. */
  lemma BoundUserNeverChanges(start: int, actions: seq<Action>, more: seq<Action>, sha: Hash, code: string)
    requires code in Run(Initial(start), actions, sha).rows
    ensures var row := Run(Initial(start), actions, sha).rows[code];
            var rows := Run(Run(Initial(start), actions, sha), more, sha).rows;
            && code in rows
            && (row.userId.Some? ==> rows[code].userId == row.userId)
            && (row.exchanged ==> rows[code].exchanged)
            && rows[code].clientId == row.clientId && rows[code].expiresAt == row.expiresAt
  {
    var s := Run(Initial(start), actions, sha);
    RunKeepsInvariant(Initial(start), actions, sha);
    RunKeepsInvariant(s, more, sha);
    assert RowOk(s.rows[code]) && Later(s.rows[code], Run(s, more, sha).rows[code]);
  }

  /** A verifier whose UPDATE goes through is told "success" whatever it finds, and is bound from then on exactly when
      the row it meets is unverified, or bound to the same user already. */
  lemma AcknowledgedVerifierIsBoundIff(start: int, actions: seq<Action>, more: seq<Action>, sha: Hash, i: nat, minting: Minting)
    requires i < |Run(Initial(start), actions, sha).calls| && Run(Initial(start), actions, sha).calls[i].VerifyRead?
    ensures var s := Run(Initial(start), actions, sha);
            var code, user := s.calls[i].code, s.calls[i].user;
            var t := Step(s, Advance(i, Ran, minting), sha);
            var u := Run(t, more, sha);
            && code in s.rows && code in u.rows
            && t.calls[i].VerifyOk?
            && (u.rows[code].userId == Some(user) <==> !s.rows[code].verified || s.rows[code].userId == Some(user))
  {
    var s := Run(Initial(start), actions, sha);
    RunKeepsInvariant(Initial(start), actions, sha);
    var code := s.calls[i].code;
    assert CallOk(s.rows, s.now, s.calls[i], sha) && RowOk(s.rows[code]);
    var t := Step(s, Advance(i, Ran, minting), sha);
    StepKeepsInvariant(s, Advance(i, Ran, minting), sha);
    RunKeepsInvariant(t, more, sha);
    hide Run, Invariant;
    assert Later(t.rows[code], Run(t, more, sha).rows[code]) && t.rows[code].verified;
  }

  /** Two verifiers race: both are told "success", and only the first is bound. */
  lemma RacingVerifierIsToldSuccess(sha: Hash)
    ensures var first, second := Uuid("u1"), Uuid("u2");
            var s := Run(Initial(0), [Generate(CodeRequest("cli", "", ""), "dc", "UC", 0, Ran),
                                      StartVerify("dc", first), StartVerify("dc", second),
                                      Advance(0, Ran, Minted), Advance(1, Ran, Minted),
                                      Advance(0, Ran, Minted), Advance(1, Ran, Minted)], sha);
            && s.calls == [VerifyOk("dc", first, true), VerifyOk("dc", second, false)]
            && s.rows.Keys == {"dc"} && s.rows["dc"].userId == Some(first)
  {
    var first, second := Uuid("u1"), Uuid("u2");
    var row := NewRow(CodeRequest("cli", "", ""), "UC", 0);
    var rows: Table := map["dc" := row];
    var s1 := Step(Initial(0), Generate(CodeRequest("cli", "", ""), "dc", "UC", 0, Ran), sha);
    assert s1 == System(0, rows, []);
    var s2 := Step(s1, StartVerify("dc", first), sha);
    var s3 := Step(s2, StartVerify("dc", second), sha);
    assert s3 == System(0, rows, [VerifyStarted("dc", first), VerifyStarted("dc", second)]);
    var s4 := Step(s3, Advance(0, Ran, Minted), sha);
    var s5 := Step(s4, Advance(1, Ran, Minted), sha);
    assert s5 == System(0, rows, [VerifyRead("dc", first, row), VerifyRead("dc", second, row)]);
    var s6 := Step(s5, Advance(0, Ran, Minted), sha);
    assert s6.calls == [VerifyOk("dc", first, true), VerifyRead("dc", second, row)];
    var s7 := Step(s6, Advance(1, Ran, Minted), sha);
    assert s7.calls == [VerifyOk("dc", first, true), VerifyOk("dc", second, false)];
    RunSeven(Initial(0), Generate(CodeRequest("cli", "", ""), "dc", "UC", 0, Ran),
             StartVerify("dc", first), StartVerify("dc", second),
             Advance(0, Ran, Minted), Advance(1, Ran, Minted), Advance(0, Ran, Minted), Advance(1, Ran, Minted), sha);
  }

  lemma RunFive(s: System, a: Action, b: Action, c: Action, d: Action, e: Action, sha: Hash)
    ensures Run(s, [a, b, c, d, e], sha) == Step(Step(Step(Step(Step(s, a, sha), b, sha), c, sha), d, sha), e, sha)
  {
    var s1 := Step(s, a, sha);
    var s2 := Step(s1, b, sha);
    var s3 := Step(s2, c, sha);
    assert [a, b, c, d, e][1..] == [b, c, d, e];
    assert Run(s, [a, b, c, d, e], sha) == Run(s1, [b, c, d, e], sha);
    RunThree(s1, b, c, d, [e], sha);
    assert [b, c, d, e] == [b, c, d] + [e];
    assert Run(Step(s3, d, sha), [e], sha) == Step(Step(s3, d, sha), e, sha);
  }

  lemma RunThree(s: System, a: Action, b: Action, c: Action, rest: seq<Action>, sha: Hash)
    ensures Run(s, [a, b, c] + rest, sha) == Run(Step(Step(Step(s, a, sha), b, sha), c, sha), rest, sha)
  {
    var s1 := Step(s, a, sha);
    var s2 := Step(s1, b, sha);
    assert ([a, b, c] + rest)[1..] == [b, c] + rest;
    assert Run(s, [a, b, c] + rest, sha) == Run(s1, [b, c] + rest, sha);
    assert ([b, c] + rest)[1..] == [c] + rest;
    assert Run(s1, [b, c] + rest, sha) == Run(s2, [c] + rest, sha);
    assert ([c] + rest)[1..] == rest;
  }

  lemma RunSeven(s: System, a: Action, b: Action, c: Action, d: Action, e: Action, f: Action, g: Action, sha: Hash)
    ensures Run(s, [a, b, c, d, e, f, g], sha)
         == Step(Step(Step(Step(Step(Step(Step(s, a, sha), b, sha), c, sha), d, sha), e, sha), f, sha), g, sha)
  {
    var s1 := Step(s, a, sha);
    assert [a, b, c, d, e, f, g][1..] == [b, c, d, e, f, g];
    assert Run(s, [a, b, c, d, e, f, g], sha) == Run(s1, [b, c, d, e, f, g], sha);
    assert [b, c, d, e, f, g][1..] == [c, d, e, f, g];
    assert Run(s1, [b, c, d, e, f, g], sha) == Run(Step(s1, b, sha), [c, d, e, f, g], sha);
    RunFive(Step(s1, b, sha), c, d, e, f, g, sha);
  }

  // ---------------------------------------------------------------------------------------------
  // A call that nothing disturbs, and the service methods

  /** The row admits the request, said without the order of the checks. */
  predicate Grantable(row: Row, req: TokenRequest, now: int, sha: Hash) {
    && now <= row.expiresAt && row.clientId == req.clientId
    && row.verified && row.userId.Some? && !row.exchanged
    && (row.challenge != "" ==>
          req.codeVerifier != "" && VerifyPkce(req.codeVerifier, row.challenge, row.challengeMethod, sha))
  }

  /** Which refusal a request meets, said for each error without the order of the checks. */
  predicate Answered(rows: Table, now: int, req: TokenRequest, minting: Minting, sha: Hash, error: Error) {
    var given := req.deviceCode != "" && req.clientId != "";
    var known := given && req.deviceCode in rows;
    && (error == Validation("device_code") <==> req.deviceCode == "")
    && (error == Validation("client_id") <==> req.deviceCode != "" && req.clientId == "")
    && (error == TokenExpired <==> known && now > rows[req.deviceCode].expiresAt)
    && (error == Pending <==> known && Presented(rows[req.deviceCode], req, now) && !HasUser(rows[req.deviceCode]))
    && (error == Validation("code_verifier") <==>
          && known && Presented(rows[req.deviceCode], req, now) && HasUser(rows[req.deviceCode])
          && !rows[req.deviceCode].exchanged && rows[req.deviceCode].challenge != "" && req.codeVerifier == "")
    && (error == TokenInvalid <==>
          || (given && req.deviceCode !in rows)
          || (known && now <= rows[req.deviceCode].expiresAt && rows[req.deviceCode].clientId != req.clientId)
          || (known && Presented(rows[req.deviceCode], req, now) && HasUser(rows[req.deviceCode])
              && (rows[req.deviceCode].exchanged || Misses(rows[req.deviceCode], req, sha))))
    && (error == Unauthorized <==> known && Grantable(rows[req.deviceCode], req, now, sha) && minting == UserMissing)
    && (error == Internal <==> known && Grantable(rows[req.deviceCode], req, now, sha) && minting == SigningFailed)
  }

  /** In time, and by the client that asked for the code. */
  predicate Presented(row: Row, req: TokenRequest, now: int) {
    now <= row.expiresAt && row.clientId == req.clientId
  }

  predicate HasUser(row: Row) {
    row.verified && row.userId.Some?
  }

  /** A verifier is shown, and is not the one the challenge asks for. */
  predicate Misses(row: Row, req: TokenRequest, sha: Hash) {
    row.challenge != "" && req.codeVerifier != "" && !VerifyPkce(req.codeVerifier, row.challenge, row.challengeMethod, sha)
  }

  function SoloExchange(req: TokenRequest, i: nat, minting: Minting): seq<Action> {
    [StartExchange(req), Advance(i, Ran, minting), Advance(i, Ran, minting), Advance(i, Ran, minting), Advance(i, Ran, minting)]
  }

  function SoloVerify(code: string, user: Uuid, i: nat): seq<Action> {
    [StartVerify(code, user), Advance(i, Ran, Minted), Advance(i, Ran, Minted)]
  }

  /** From any state, an exchange that nothing interrupts is answered with tokens exactly when both fields are
      present and the stored row admits the request; the row is then used up, and otherwise untouched. */
  lemma UndisturbedExchange(s: System, req: TokenRequest, minting: Minting, sha: Hash)
    ensures var i := |s.calls|;
            var t := Run(s, SoloExchange(req, i, minting), sha);
            var granted := req.deviceCode != "" && req.clientId != "" && req.deviceCode in s.rows
                           && Grantable(s.rows[req.deviceCode], req, s.now, sha);
            && t.now == s.now && |t.calls| == i + 1 && t.calls[..i] == s.calls
            && (t.calls[i].ExchangeOk? <==> granted && minting == Minted)
            && (t.calls[i].ExchangeOk? ==> s.rows[req.deviceCode].userId == Some(t.calls[i].token.userId))
            && (t.calls[i].ExchangeOk? || t.calls[i].ExchangeFailed?)
            && t.rows == if granted then s.rows[req.deviceCode := s.rows[req.deviceCode].(exchanged := true)] else s.rows
  {
    hide VerifyPkce, Run;
    var i := |s.calls|;
    var go := Advance(i, Ran, minting);
    RunFive(s, StartExchange(req), go, go, go, go, sha);
    var s1 := Step(s, StartExchange(req), sha);
    var s2 := Step(s1, go, sha);
    var s3 := Step(s2, go, sha);
    var s4 := Step(s3, go, sha);
    var s5 := Step(s4, go, sha);
    assert s1.calls[..i] == s.calls && s2.calls[..i] == s.calls && s3.calls[..i] == s.calls
        && s4.calls[..i] == s.calls && s5.calls[..i] == s.calls;
  }

  /** What Refusal says, error by error. */
  lemma RefusalIs(row: Row, req: TokenRequest, now: int, sha: Hash)
    ensures Refusal(row, req, now, sha) == Some(TokenExpired) <==> now > row.expiresAt
    ensures Refusal(row, req, now, sha) == Some(Pending) <==> Presented(row, req, now) && !HasUser(row)
    ensures Refusal(row, req, now, sha) == Some(Validation("code_verifier")) <==>
              Presented(row, req, now) && HasUser(row) && !row.exchanged && row.challenge != "" && req.codeVerifier == ""
    ensures Refusal(row, req, now, sha) == Some(TokenInvalid) <==>
              || (now <= row.expiresAt && row.clientId != req.clientId)
              || (Presented(row, req, now) && HasUser(row) && (row.exchanged || Misses(row, req, sha)))
    ensures Refusal(row, req, now, sha) == None <==> Grantable(row, req, now, sha)
    ensures Refusal(row, req, now, sha) in {None, Some(TokenExpired), Some(Pending), Some(Validation("code_verifier")), Some(TokenInvalid)}
  {
    hide VerifyPkce;
  }

  /** The error that the checks come to, one after the other. */
  function SoloError(rows: Table, now: int, req: TokenRequest, minting: Minting, sha: Hash): Option<Error> {
    if req.deviceCode == "" then Some(Validation("device_code"))
    else if req.clientId == "" then Some(Validation("client_id"))
    else if req.deviceCode !in rows then Some(TokenInvalid)
    else if Refusal(rows[req.deviceCode], req, now, sha).Some? then Refusal(rows[req.deviceCode], req, now, sha)
    else match minting case UserMissing => Some(Unauthorized) case SigningFailed => Some(Internal) case Minted => None
  }

  lemma SoloErrorIs(s: System, req: TokenRequest, minting: Minting, sha: Hash)
    ensures var t := Run(s, SoloExchange(req, |s.calls|, minting), sha);
            && |t.calls| == |s.calls| + 1
            && (t.calls[|s.calls|].ExchangeFailed? ==>
                  SoloError(s.rows, s.now, req, minting, sha) == Some(t.calls[|s.calls|].error))
  {
    hide VerifyPkce, Run, Refusal, Grantable;
    var i, go := |s.calls|, Advance(|s.calls|, Ran, minting);
    RunFive(s, StartExchange(req), go, go, go, go, sha);
    if req.deviceCode in s.rows {
      RefusalIs(s.rows[req.deviceCode], req, s.now, sha);
      GrantableIsUnused(s.rows[req.deviceCode], req, s.now, sha);
    }
  }

  lemma SoloErrorAnswers(rows: Table, now: int, req: TokenRequest, minting: Minting, sha: Hash, error: Error)
    requires SoloError(rows, now, req, minting, sha) == Some(error)
    ensures Answered(rows, now, req, minting, sha, error)
  {
    hide VerifyPkce, Refusal, Presented, HasUser, Misses, Grantable;
    if req.deviceCode in rows { RefusalIs(rows[req.deviceCode], req, now, sha); }
  }

  /** From any state, an exchange that nothing interrupts and that is refused is told the one error that says why. */
  lemma UndisturbedRefusal(s: System, req: TokenRequest, minting: Minting, sha: Hash)
    ensures var t := Run(s, SoloExchange(req, |s.calls|, minting), sha);
            && |t.calls| == |s.calls| + 1
            && (t.calls[|s.calls|].ExchangeFailed? ==> Answered(s.rows, s.now, req, minting, sha, t.calls[|s.calls|].error))
  {
    hide Run, Answered, SoloError, SoloExchange;
    SoloErrorIs(s, req, minting, sha);
    var t := Run(s, SoloExchange(req, |s.calls|, minting), sha);
    if t.calls[|s.calls|].ExchangeFailed? { SoloErrorAnswers(s.rows, s.now, req, minting, sha, t.calls[|s.calls|].error); }
  }

  lemma GrantableIsUnused(row: Row, req: TokenRequest, now: int, sha: Hash)
    ensures Grantable(row, req, now, sha) ==> row.userId.Some? && !row.exchanged && now <= row.expiresAt
  {}

  /** From any state, a verification that nothing interrupts binds its user exactly when the code exists and is not
      verified yet; the clock plays no part. */
  lemma UndisturbedVerify(s: System, code: string, user: Uuid, sha: Hash)
    ensures var i := |s.calls|;
            var t := Run(s, SoloVerify(code, user, i), sha);
            var unclaimed := code in s.rows && !s.rows[code].verified;
            && |t.calls| == i + 1 && t.calls[..i] == s.calls
            && t.calls[i] == (if unclaimed then VerifyOk(code, user, true)
                              else VerifyFailed(code, user, if code in s.rows then Conflict else NotFound, false))
            && t.rows == if unclaimed then s.rows[code := s.rows[code].(verified := true, userId := Some(user))] else s.rows
  {
    var i := |s.calls|;
    var go := Advance(i, Ran, Minted);
    RunThree(s, StartVerify(code, user), go, go, [], sha);
    assert SoloVerify(code, user, i) == [StartVerify(code, user), go, go] + [];
    var s1 := Step(s, StartVerify(code, user), sha);
    var s2 := Step(s1, go, sha);
    var s3 := Step(s2, go, sha);
    assert s1.calls[..i] == s.calls && s2.calls[..i] == s.calls && s3.calls[..i] == s.calls;
  }

  // ---------------------------------------------------------------------------------------------
  // What an answer means for later exchanges

  /** The exchange of this code has passed its checks. */
  predicate Through(c: Call, code: string) {
    (c.ExchangePassed? || c.ExchangeWon? || c.ExchangeOk?) && c.req.deviceCode == code
  }

  lemma NoneGetsThroughLate(s: System, a: Action, sha: Hash, code: string, j: nat)
    requires Invariant(s, sha) && code in s.rows && s.now > s.rows[code].expiresAt
    requires j < |Step(s, a, sha).calls| && Through(Step(s, a, sha).calls[j], code)
    ensures j < |s.calls| && Through(s.calls[j], code)
  {
    hide VerifyPkce;
    if j < |s.calls| { assert CallOk(s.rows, s.now, s.calls[j], sha); }
  }

  lemma {:induction false} LateRunLetsNoneThrough(s: System, actions: seq<Action>, sha: Hash, code: string, j: nat)
    requires Invariant(s, sha) && code in s.rows && s.now > s.rows[code].expiresAt
    requires j < |Run(s, actions, sha).calls| && Through(Run(s, actions, sha).calls[j], code)
    ensures j < |s.calls| && Through(s.calls[j], code)
    decreases |actions|
  {
    if actions != [] {
      var t := Step(s, actions[0], sha);
      StepKeepsInvariant(s, actions[0], sha);
      ClockRises(s, actions[0], sha);
      hide Step, Invariant;
      assert Later(s.rows[code], t.rows[code]);
      LateRunLetsNoneThrough(t, actions[1..], sha, code, j);
      NoneGetsThroughLate(s, actions[0], sha, code, j);
    }
  }

  lemma ClockRises(s: System, a: Action, sha: Hash)
    ensures s.now <= Step(s, a, sha).now
  {
    hide AdvanceCall;
  }

  /** After an exchange is answered "expired", tokens for its code are returned only to calls that had passed their
      checks before. */
  lemma ExpiredIsFinal(start: int, actions: seq<Action>, more: seq<Action>, sha: Hash, i: nat, db: Db, minting: Minting, j: nat)
    requires i < |Run(Initial(start), actions, sha).calls| && Run(Initial(start), actions, sha).calls[i].ExchangeRead?
    ensures var s := Run(Initial(start), actions, sha);
            var code, t := s.calls[i].req.deviceCode, Step(s, Advance(i, db, minting), sha);
            var u := Run(t, more, sha);
            t.calls[i] == ExchangeFailed(s.calls[i].req, TokenExpired) ==>
              (j < |u.calls| && u.calls[j].ExchangeOk? && u.calls[j].req.deviceCode == code ==>
                 j < |t.calls| && Through(t.calls[j], code))
  {
    var s := Run(Initial(start), actions, sha);
    var a := Advance(i, db, minting);
    var t := Step(s, a, sha);
    RunKeepsInvariant(Initial(start), actions, sha);
    StepKeepsInvariant(s, a, sha);
    assert CallOk(s.rows, s.now, s.calls[i], sha);
    if t.calls[i] == ExchangeFailed(s.calls[i].req, TokenExpired) {
      var code := s.calls[i].req.deviceCode;
      assert t.now > t.rows[code].expiresAt;
      hide Run, Step, Invariant, Refusal;
      if j < |Run(t, more, sha).calls| && Through(Run(t, more, sha).calls[j], code) {
        LateRunLetsNoneThrough(t, more, sha, code, j);
      }
    }
  }

  lemma UsedUpStepWinsNothing(s: System, a: Action, sha: Hash, code: string, j: nat)
    requires code in s.rows && s.rows[code].exchanged && j < |Step(s, a, sha).calls| && Won(Step(s, a, sha).calls[j], code)
    requires Invariant(s, sha)
    ensures j < |s.calls| && Won(s.calls[j], code)
  {
    hide VerifyPkce, Refusal;
    if j < |s.calls| { assert CallOk(s.rows, s.now, s.calls[j], sha); }
  }

  lemma {:induction false} UsedUpRunWinsNothing(s: System, actions: seq<Action>, sha: Hash, code: string, j: nat)
    requires Invariant(s, sha) && code in s.rows && s.rows[code].exchanged
    requires j < |Run(s, actions, sha).calls| && Won(Run(s, actions, sha).calls[j], code)
    ensures j < |s.calls| && Won(s.calls[j], code)
    decreases |actions|
  {
    if actions != [] {
      var t := Step(s, actions[0], sha);
      StepKeepsInvariant(s, actions[0], sha);
      hide Step, Invariant;
      assert Later(s.rows[code], t.rows[code]);
      UsedUpRunWinsNothing(t, actions[1..], sha, code, j);
      UsedUpStepWinsNothing(s, actions[0], sha, code, j);
    }
  }

  /** From here the request can be sent again and be granted. */
  ghost predicate CanBeGranted(t: System, req: TokenRequest, sha: Hash) {
    exists more, j: nat ::
      |t.calls| <= j < |Run(t, more, sha).calls| && Run(t, more, sha).calls[j].ExchangeOk? && Run(t, more, sha).calls[j].req == req
  }

  lemma GrantedAfterVerify(t: System, req: TokenRequest, user: Uuid, sha: Hash)
    requires req.deviceCode != "" && req.clientId != "" && req.deviceCode in t.rows
    requires var row := t.rows[req.deviceCode];
             && RowOk(row) && Presented(row, req, t.now) && !row.exchanged
             && (row.challenge != "" ==>
                   req.codeVerifier != "" && VerifyPkce(req.codeVerifier, row.challenge, row.challengeMethod, sha))
    ensures CanBeGranted(t, req, sha)
  {
    var code := req.deviceCode;
    var verify: seq<Action> := if t.rows[code].verified then [] else SoloVerify(code, user, |t.calls|);
    var v := Run(t, verify, sha);
    UndisturbedVerify(t, code, user, sha);
    assert v.now == t.now by { SoloVerifyKeepsClock(t, code, user, sha); }
    var exchange := SoloExchange(req, |v.calls|, Minted);
    UndisturbedExchange(v, req, Minted, sha);
    RunConcat(t, verify, exchange, sha);
    assert Run(t, [], sha) == t;
    hide Run, SoloVerify, SoloExchange;
    var u := Run(t, verify + exchange, sha);
    assert u.calls[|v.calls|].ExchangeOk?;
    SoloExchangeIsFor(v, req, sha);
    assert |t.calls| <= |v.calls| < |u.calls|;
  }

  lemma SoloVerifyKeepsClock(s: System, code: string, user: Uuid, sha: Hash)
    ensures Run(s, SoloVerify(code, user, |s.calls|), sha).now == s.now
  {
    var go := Advance(|s.calls|, Ran, Minted);
    RunThree(s, StartVerify(code, user), go, go, [], sha);
    assert SoloVerify(code, user, |s.calls|) == [StartVerify(code, user), go, go] + [];
    hide AdvanceCall;
  }

  lemma SoloExchangeIsFor(s: System, req: TokenRequest, sha: Hash)
    ensures var i := |s.calls|; var u := Run(s, SoloExchange(req, i, Minted), sha);
            |u.calls| == i + 1 && (u.calls[i].ExchangeOk? ==> u.calls[i].req == req)
  {
    hide VerifyPkce, Run, Refusal;
    var i := |s.calls|;
    var go := Advance(i, Ran, Minted);
    RunFive(s, StartExchange(req), go, go, go, go, sha);
  }

  /** After an exchange is answered "pending", the same request, with a verifier for the challenge if there is one, can
      still be granted exactly when the code has not been used up since the call read it. */
  lemma PendingCanBeGrantedIff(start: int, actions: seq<Action>, sha: Hash, i: nat, db: Db, minting: Minting, user: Uuid, verifier: string)
    requires i < |Run(Initial(start), actions, sha).calls| && Run(Initial(start), actions, sha).calls[i].ExchangeRead?
    requires var s := Run(Initial(start), actions, sha);
             var t := Step(s, Advance(i, db, minting), sha);
             && t.calls[i] == ExchangeFailed(s.calls[i].req, Pending)
             && (s.calls[i].snap.challenge != "" ==>
                   verifier != "" && VerifyPkce(verifier, s.calls[i].snap.challenge, s.calls[i].snap.challengeMethod, sha))
    ensures var s := Run(Initial(start), actions, sha);
            var t, req := Step(s, Advance(i, db, minting), sha), s.calls[i].req.(codeVerifier := verifier);
            && req.deviceCode in t.rows
            && (CanBeGranted(t, req, sha) <==> !t.rows[req.deviceCode].exchanged)
  {
    var s := Run(Initial(start), actions, sha);
    var a := Advance(i, db, minting);
    var t, req := Step(s, a, sha), s.calls[i].req.(codeVerifier := verifier);
    RunKeepsInvariant(Initial(start), actions, sha);
    StepKeepsInvariant(s, a, sha);
    assert CallOk(s.rows, s.now, s.calls[i], sha);
    assert t.rows == s.rows && t.now == s.now && Presented(s.calls[i].snap, s.calls[i].req, s.now);
    assert RowOk(t.rows[req.deviceCode]);
    hide Run, Step, Refusal, AdvanceCall;
    if t.rows[req.deviceCode].exchanged {
      if CanBeGranted(t, req, sha) {
        var more, j: nat :| |t.calls| <= j < |Run(t, more, sha).calls| && Run(t, more, sha).calls[j].ExchangeOk?
                            && Run(t, more, sha).calls[j].req == req;
        UsedUpRunWinsNothing(t, more, sha, req.deviceCode, j);
      }
    } else {
      GrantedAfterVerify(t, req, user, sha);
    }
  }

  class DeviceAuthRepo {
    var rows: Table

    constructor ()
      ensures rows == map[]
    {
      rows := map[];
    }

    method Save(code: string, row: Row) returns (ok: bool)
      modifies this
      ensures ok == Insert(old(rows), code, row).Some?
      ensures rows == Insert(old(rows), code, row).GetOr(old(rows))
    {
      if code in rows || exists c :: c in rows && rows[c].userCode == row.userCode {
        return false;
      }
      rows := rows[code := row];
      return true;
    }

    method FindByDeviceCode(code: string) returns (row: Option<Row>)
      ensures row == Lookup(rows, code)
    {
      return if code in rows then Some(rows[code]) else None;
    }

    /** Reports no error when no row matched. */
    method MarkVerified(code: string, user: Uuid)
      modifies this
      ensures rows == VerifiedMark(old(rows), code, user).0
    {
      if code in rows && !rows[code].verified {
        rows := rows[code := rows[code].(verified := true, userId := Some(user))];
      }
    }

    method MarkExchanged(code: string) returns (ok: bool)
      modifies this
      ensures rows == ExchangedMark(old(rows), code).0
      ensures ok <==> ExchangedMark(old(rows), code).1 == 1
    {
      ok := code in rows && !rows[code].exchanged;
      if ok {
        rows := rows[code := rows[code].(exchanged := true)];
      }
    }
  }

  class DeviceAuthService {
    const repo: DeviceAuthRepo
    const sha: Hash

    constructor (repo: DeviceAuthRepo, sha: Hash)
      ensures this.repo == repo && this.sha == sha
    {
      this.repo := repo;
      this.sha := sha;
    }

    /** The random codes are arguments; a code that collides with a stored one is an internal error. */
    method GenerateDeviceCode(request: CodeRequest, deviceCode: string, userCode: string, now: int)
      returns (result: Result<string, Error>)
      modifies repo
      ensures repo.rows == Step(System(now, old(repo.rows), []), Generate(request, deviceCode, userCode, now, Ran), sha).rows
      ensures result.Ok? <==> request.clientId != "" && deviceCode !in old(repo.rows)
                              && forall c :: c in old(repo.rows) ==> old(repo.rows)[c].userCode != userCode
      ensures result.Ok? ==> result.value == deviceCode
                             && repo.rows == old(repo.rows)[deviceCode := Row(request.clientId, userCode, request.challenge,
                                                              request.challengeMethod, now + 900, false, false, None)]
      ensures result.Err? ==> repo.rows == old(repo.rows)
      ensures result.Err? ==> result.error == if request.clientId == "" then Validation("client_id") else Internal
    {
      if request.clientId == "" { return Err(Validation("client_id")); }
      var saved := repo.Save(deviceCode, NewRow(request, userCode, now));
      if !saved { return Err(Internal); }
      return Ok(deviceCode);
    }

    /** Run without interruption, the method does what the interleaved call does, step for step. */
    method ExchangeToken(req: TokenRequest, now: int, minting: Minting) returns (result: Result<Token, Error>)
      modifies repo
      ensures var t := Run(System(now, old(repo.rows), []), SoloExchange(req, 0, minting), sha);
              && repo.rows == t.rows && |t.calls| == 1
              && (result.Ok? ==> t.calls[0].ExchangeOk? && t.calls[0].token == result.value)
              && (result.Err? ==> t.calls[0].ExchangeFailed? && t.calls[0].error == result.error)
      ensures result.Err? ==> Answered(old(repo.rows), now, req, minting, sha, result.error)
    {
      hide VerifyPkce, Run, Answered;
      ghost var start := System(now, repo.rows, []);
      UndisturbedRefusal(start, req, minting, sha);
      ghost var go := Advance(0, Ran, minting);
      RunFive(start, StartExchange(req), go, go, go, go, sha);
      if req.deviceCode == "" { return Err(Validation("device_code")); }
      if req.clientId == "" { return Err(Validation("client_id")); }
      var found := repo.FindByDeviceCode(req.deviceCode);
      if found.None? { return Err(TokenInvalid); }
      var dc := found.value;
      if now > dc.expiresAt { return Err(TokenExpired); }
      if dc.clientId != req.clientId { return Err(TokenInvalid); }
      if !dc.verified { return Err(Pending); }
      if dc.userId.None? { return Err(Pending); }
      if dc.exchanged { return Err(TokenInvalid); }
      if dc.challenge != "" {
        if req.codeVerifier == "" { return Err(Validation("code_verifier")); }
        if !VerifyPkce(req.codeVerifier, dc.challenge, dc.challengeMethod, sha) { return Err(TokenInvalid); }
      }
      var marked := repo.MarkExchanged(req.deviceCode);
      if !marked { return Err(Internal); }
      match minting {
        case UserMissing => return Err(Unauthorized);
        case SigningFailed => return Err(Internal);
        case Minted => return Ok(Token(dc.userId.value));
      }
    }

    method VerifyDeviceCode(deviceCode: string, user: Option<Uuid>) returns (error: Option<Error>)
      modifies repo
      ensures user.None? ==> error == Some(TokenInvalid) && repo.rows == old(repo.rows)
      ensures user.Some? ==>
                var t := Run(System(0, old(repo.rows), []), SoloVerify(deviceCode, user.value, 0), sha);
                && repo.rows == t.rows && |t.calls| == 1
                && (error.None? ==> t.calls[0] == VerifyOk(deviceCode, user.value, true))
                && (error.Some? ==> t.calls[0] == VerifyFailed(deviceCode, user.value, error.value, false))
    {
      if user.None? { return Some(TokenInvalid); }
      UndisturbedVerify(System(0, repo.rows, []), deviceCode, user.value, sha);
      var found := repo.FindByDeviceCode(deviceCode);
      if found.None? { return Some(NotFound); }
      if found.value.verified { return Some(Conflict); }
      repo.MarkVerified(deviceCode, user.value);
      return None;
    }
  }
}
