/** Execution tokens: the server signs a `|`-joined message over eight fields, the agent rebuilds
    the same message and checks it. JSON text, hashing, hex, RFC 3339 and Ed25519 are parameters. */
module ExecutionToken {
  import opened Wrappers
  import opened CanonicalJson

  type Key = nat

  /** The library functions both sides call. */
  datatype Primitives = Primitives(
    parseJson: string -> Option<Json>,
    printJson: Json -> string,
    sha256Hex: string -> string,
    formatTime: int -> string,
    parseTime: string -> Option<int>,
    publicKey: Key -> Key,
    signHex: (Key, string) -> string,
    decodeHex: string -> Option<string>,
    readSignature: string -> Option<string>,
    checkSignature: (Key, string, string) -> bool
  )

  /** What the model takes from the libraries: a printed time reads back, so does the sorted form of anything the
      parser returned, neither times nor hashes contain the separator, and a signature verifies for the message it
      was made from and no other. */
  ghost predicate Lawful(p: Primitives) {
    && (forall t :: p.parseTime(p.formatTime(t)) == Some(t))
    && (forall s :: p.parseJson(s).Some? ==> ReadsBack(p, p.parseJson(s).value))
    && (forall t :: PipeFree(p.formatTime(t)))
    && (forall s :: PipeFree(p.sha256Hex(s)))
    && (forall k, m, m' :: SignatureAccepted(p, p.publicKey(k), m, p.signHex(k, m')) <==> m == m')
  }

  predicate ReadsBack(p: Primitives, j: Json) {
    WellFormed(j) && p.parseJson(p.printJson(SortValue(j))) == Some(SortValue(j))
  }

  predicate SignatureAccepted(p: Primitives, key: Key, message: string, hex: string) {
    p.decodeHex(hex).Some? && p.readSignature(p.decodeHex(hex).value).Some?
    && p.checkSignature(key, message, p.readSignature(p.decodeHex(hex).value).value)
  }

  // ---------------------------------------------------------------------------
  // The hashed detail
  // ---------------------------------------------------------------------------

  function CanonicalizeJson(p: Primitives, input: string): (s: string) {
    match p.parseJson(input)
    case Some(v) => p.printJson(SortValue(v))
    case None => input
  }

  /** Two details canonicalize alike exactly when they are the same JSON value up to member order,
      or are both not JSON and are the same text. */
  lemma CanonicalTextExactly(p: Primitives, x: string, y: string)
    requires Lawful(p)
    ensures CanonicalizeJson(p, x) == CanonicalizeJson(p, y)
       <==> match (p.parseJson(x), p.parseJson(y))
            case (Some(a), Some(b)) => Equivalent(a, b)
            case (None, None) => x == y
            case _ => false
  {
    match (p.parseJson(x), p.parseJson(y))
    case (Some(a), Some(b)) => CanonicalExactly(a, b);
    case _ =>
  }

  datatype Claim = Claim(
    requestId: string, operation: string, environment: string, database: string,
    detail: string, executionPlanJson: Option<string>
  )

  /** What is hashed for a claim, on the server and on the agent alike. */
  function CanonicalDetail(p: Primitives, claim: Claim): (s: string) {
    match claim.executionPlanJson
    case Some(plan) => plan
    case None =>
      if claim.operation == "migrate_up" || claim.operation == "migrate_down" || claim.operation == "migrate_repair"
      then CanonicalizeJson(p, claim.detail)
      else claim.detail
  }

  // ---------------------------------------------------------------------------
  // The joined message
  // ---------------------------------------------------------------------------

  const PIPE: char := '|'

  function Join(fields: seq<string>): (s: string)
    requires fields != []
  {
    if |fields| == 1 then fields[0] else fields[0] + [PIPE] + Join(fields[1..])
  }

  predicate PipeFree(s: string) {
    forall i :: 0 <= i < |s| ==> s[i] != PIPE
  }

  /** Every field but the last is free of the separator. */
  predicate Unambiguous(fields: seq<string>) {
    forall i :: 0 <= i < |fields| - 1 ==> PipeFree(fields[i])
  }

  function FirstPipe(s: string): (i: nat)
    ensures i <= |s| && (forall k :: 0 <= k < i ==> s[k] != PIPE) && (i < |s| ==> s[i] == PIPE)
  {
    if s == "" || s[0] == PIPE then 0 else 1 + FirstPipe(s[1..])
  }

  /** Cut at the first `n` separators. */
  function Split(s: string, n: nat): (fields: seq<string>)
    ensures fields != [] && |fields| <= n + 1
  {
    if n == 0 || FirstPipe(s) == |s| then [s]
    else [s[..FirstPipe(s)]] + Split(s[FirstPipe(s) + 1..], n - 1)
  }

  lemma {:induction false} JoinSplit(s: string, n: nat)
    ensures Join(Split(s, n)) == s
    ensures Unambiguous(Split(s, n))
  {
    var k := FirstPipe(s);
    if n > 0 && k < |s| {
      var rest := Split(s[k + 1..], n - 1);
      JoinSplit(s[k + 1..], n - 1);
      CutAt(s, k);
      JoinMore(s[..k], rest);
    }
  }

  lemma CutAt(s: string, k: nat)
    requires k < |s| && s[k] == PIPE && forall i :: 0 <= i < k ==> s[i] != PIPE
    ensures PipeFree(s[..k]) && s == s[..k] + [PIPE] + s[k + 1..]
  {
  }

  lemma JoinMore(f: string, rest: seq<string>)
    requires rest != [] && PipeFree(f) && Unambiguous(rest)
    ensures Join([f] + rest) == f + [PIPE] + Join(rest) && Unambiguous([f] + rest)
  {
    var fields := [f] + rest;
    assert fields[1..] == rest;
    assert forall i :: 0 < i < |fields| ==> fields[i] == rest[i - 1];
  }

  lemma FirstPipeExact(f: string, rest: string)
    requires PipeFree(f)
    ensures FirstPipe(f + [PIPE] + rest) == |f|
  {
    var s := f + [PIPE] + rest;
    assert s[|f|] == PIPE;
    assert forall k :: 0 <= k < |f| ==> s[k] == f[k];
  }

  lemma JoinParts(f: string, tail: string)
    ensures var s := f + [PIPE] + tail; s[..|f|] == f && s[|f|] == PIPE && s[|f| + 1..] == tail
  {
  }

  lemma {:induction false} SplitJoin(fields: seq<string>)
    requires fields != [] && Unambiguous(fields)
    ensures Split(Join(fields), |fields| - 1) == fields
  {
    if |fields| > 1 {
      var f, tail := fields[0], fields[1..];
      FirstPipeExact(f, Join(tail));
      JoinParts(f, Join(tail));
      SplitJoin(tail);
      assert Split(Join(fields), |fields| - 1) == [f] + Split(Join(tail), |fields| - 2);
    }
  }

  /** Cutting behind any separator leaves the rest of a joined list: a shorter first field, or none of it. */
  lemma BehindFirstPipe(fields: seq<string>) returns (rest: seq<string>)
    requires |fields| > 1
    ensures |rest| >= |fields| - 1
    ensures var s := Join(fields); FirstPipe(s) < |s| && Join(rest) == s[FirstPipe(s) + 1..]
  {
    var f, tail := fields[0], fields[1..];
    var s := Join(fields);
    var k := FirstPipe(s);
    JoinParts(f, Join(tail));
    if k < |f| {
      rest := [f[k + 1..]] + tail;
      assert rest[1..] == tail;
      assert s[k + 1..] == f[k + 1..] + [PIPE] + Join(tail);
    } else {
      rest := tail;
    }
  }

  lemma {:induction false} SplitCount(fields: seq<string>, n: nat)
    requires |fields| > n
    ensures |Split(Join(fields), n)| == n + 1
    decreases n
  {
    if n > 0 {
      var rest := BehindFirstPipe(fields);
      SplitCount(rest, n - 1);
      var s := Join(fields);
      assert Split(s, n) == [s[..FirstPipe(s)]] + Split(Join(rest), n - 1);
    }
  }

  /** Field lists free of the separator, last field excepted, have different messages. */
  lemma MessageInjective(fs: seq<string>, gs: seq<string>)
    requires fs != [] && |fs| == |gs| && Unambiguous(fs) && Unambiguous(gs) && Join(fs) == Join(gs)
    ensures fs == gs
  {
    SplitJoin(fs);
    SplitJoin(gs);
  }

  /** Every message has exactly one reading in which only the last field may contain the separator. */
  lemma OneReading(fields: seq<string>)
    requires fields != []
    ensures var cut := Split(Join(fields), |fields| - 1);
            && |cut| == |fields| && Unambiguous(cut) && Join(cut) == Join(fields)
            && forall gs: seq<string> :: |gs| == |fields| && Unambiguous(gs) && Join(gs) == Join(fields) ==> gs == cut
  {
    var cut := Split(Join(fields), |fields| - 1);
    JoinSplit(Join(fields), |fields| - 1);
    SplitCount(fields, |fields| - 1);
    forall gs: seq<string> | |gs| == |fields| && Unambiguous(gs) && Join(gs) == Join(fields) ensures gs == cut {
      MessageInjective(gs, cut);
    }
  }

  // ---------------------------------------------------------------------------
  // When a message has one reading only
  // ---------------------------------------------------------------------------

  predicate AllPipeFree(fields: seq<string>) {
    forall i :: 0 <= i < |fields| ==> PipeFree(fields[i])
  }

  function Pipes(s: string): nat {
    if s == "" then 0 else (if s[0] == PIPE then 1 else 0) + Pipes(s[1..])
  }

  lemma {:induction false} NoPipes(s: string)
    ensures Pipes(s) == 0 <==> PipeFree(s)
  {
    if s != "" {
      NoPipes(s[1..]);
      assert forall i :: 1 <= i < |s| ==> s[i] == s[1..][i - 1];
    }
  }

  lemma {:induction false} PipesConcat(s: string, t: string)
    ensures Pipes(s + t) == Pipes(s) + Pipes(t)
  {
    if s == "" {
      assert s + t == t;
    } else {
      assert (s + t)[1..] == s[1..] + t;
      PipesConcat(s[1..], t);
    }
  }

  /** A message has at least the separators between its fields, and just those when no field contains one. */
  lemma {:induction false} PipesOfMessage(fields: seq<string>)
    requires fields != []
    ensures Pipes(Join(fields)) >= |fields| - 1
    ensures Pipes(Join(fields)) == |fields| - 1 <==> AllPipeFree(fields)
  {
    NoPipes(fields[0]);
    if |fields| > 1 {
      PipesConcat(fields[0] + [PIPE], Join(fields[1..]));
      PipesConcat(fields[0], [PIPE]);
      PipesOfMessage(fields[1..]);
      assert AllPipeFree(fields) <==> PipeFree(fields[0]) && AllPipeFree(fields[1..]) by {
        assert forall i :: 1 <= i < |fields| ==> fields[i] == fields[1..][i - 1];
      }
    }
  }

  /** Neighbouring fields can be exchanged for any two that join alike. */
  lemma {:induction false} JoinPair(fields: seq<string>, i: nat, x: string, y: string)
    requires i + 1 < |fields| && x + [PIPE] + y == fields[i] + [PIPE] + fields[i + 1]
    ensures Join(fields[i := x][i + 1 := y]) == Join(fields)
  {
    var gs := fields[i := x][i + 1 := y];
    if i == 0 {
      assert gs[2..] == fields[2..];
      JoinFront(gs);
      JoinFront(fields);
    } else {
      assert gs[1..] == fields[1..][i - 1 := x][i := y];
      JoinPair(fields[1..], i - 1, x, y);
    }
  }

  lemma JoinFront(fields: seq<string>)
    requires |fields| > 1
    ensures Join(fields) == fields[0] + [PIPE] + fields[1] + if |fields| == 2 then "" else [PIPE] + Join(fields[2..])
  {
    assert fields[1..][1..] == fields[2..];
    if |fields| > 2 {
      Regroup(fields[0] + [PIPE], fields[1], [PIPE], Join(fields[2..]));
    }
  }

  lemma Regroup(a: string, b: string, c: string, d: string)
    ensures a + (b + c + d) == a + b + (c + d)
  {
  }

  /** Where one of two neighbours contains the separator, the boundary between them can move. */
  lemma MoveBoundary(x: string, y: string) returns (x': string, y': string)
    requires !PipeFree(x) || !PipeFree(y)
    ensures x' + [PIPE] + y' == x + [PIPE] + y && x' != x
  {
    if !PipeFree(x) {
      var k :| 0 <= k < |x| && x[k] == PIPE;
      x', y' := x[..k], x[k + 1..] + [PIPE] + y;
      assert x == x[..k] + [PIPE] + x[k + 1..];
    } else {
      var k :| 0 <= k < |y| && y[k] == PIPE;
      x', y' := x + [PIPE] + y[..k], y[k + 1..];
      assert y == y[..k] + [PIPE] + y[k + 1..];
    }
  }

  /** No other list of as many fields has the message of `fields`. */
  ghost predicate Determined(fields: seq<string>)
    requires fields != []
  {
    forall gs: seq<string> :: |gs| == |fields| && Join(gs) == Join(fields) ==> gs == fields
  }

  /** A message of two fields or more determines its fields exactly when none of them contains the separator. */
  lemma MessageDeterminesFields(fields: seq<string>)
    requires |fields| > 1
    ensures Determined(fields) <==> AllPipeFree(fields)
  {
    if AllPipeFree(fields) {
      forall gs: seq<string> | |gs| == |fields| && Join(gs) == Join(fields) ensures gs == fields {
        FreeFieldsDetermined(fields, gs);
      }
    } else {
      var i :| 0 <= i < |fields| && !PipeFree(fields[i]);
      var l := if i == |fields| - 1 then i - 1 else i;
      var x, y := MoveBoundary(fields[l], fields[l + 1]);
      JoinPair(fields, l, x, y);
      assert fields[l := x][l + 1 := y][l] != fields[l];
    }
  }

  lemma FreeFieldsDetermined(fields: seq<string>, gs: seq<string>)
    requires fields != [] && AllPipeFree(fields) && |gs| == |fields| && Join(gs) == Join(fields)
    ensures gs == fields
  {
    PipesOfMessage(fields);
    PipesOfMessage(gs);
    MessageInjective(fields, gs);
  }

  // ---------------------------------------------------------------------------
  // Signing and verifying
  // ---------------------------------------------------------------------------

  datatype Claims = Claims(
    requestId: string, operation: string, environment: string, database: string,
    detailHash: string, requesterRole: string, requester: string
  )

  datatype Token = Token(
    requestId: string, operation: string, environment: string, database: string,
    detailHash: string, expiresAt: string, signature: string,
    requesterRole: string, requesterSubjectId: string
  )

  datatype VerifyError =
    | InvalidExpiresAt | Expired
    | RequestIdMismatch | OperationMismatch | DatabaseMismatch | EnvironmentMismatch
    | DetailHashMismatch
    | InvalidSignatureHex | InvalidSignature | SignatureRejected

  /** Five minutes, in the nanoseconds the clock counts. */
  const LIFETIME: int := 5 * 60 * 1_000_000_000

  function SignedFields(c: Claims, expiresAt: string): (fs: seq<string>) {
    [c.requestId, c.operation, c.environment, c.database, c.detailHash, expiresAt, c.requesterRole, c.requester]
  }

  function CheckedFields(t: Token, claim: Claim): (fs: seq<string>) {
    [claim.requestId, claim.operation, claim.environment, claim.database,
     t.detailHash, t.expiresAt, t.requesterRole, t.requesterSubjectId]
  }

  function Sign(p: Primitives, key: Key, c: Claims, now: int): (t: Token) {
    var expiresAt := p.formatTime(now + LIFETIME);
    Token(c.requestId, c.operation, c.environment, c.database, c.detailHash, expiresAt,
          p.signHex(key, Join(SignedFields(c, expiresAt))), c.requesterRole, c.requester)
  }

  function Verify(p: Primitives, t: Token, claim: Claim, publicKey: Key, now: int): (r: Result<(), VerifyError>) {
    if p.parseTime(t.expiresAt).None? then Err(InvalidExpiresAt)
    else if now > p.parseTime(t.expiresAt).value then Err(Expired)
    else if t.requestId != claim.requestId then Err(RequestIdMismatch)
    else if t.operation != claim.operation then Err(OperationMismatch)
    else if t.database != claim.database then Err(DatabaseMismatch)
    else if t.environment != claim.environment then Err(EnvironmentMismatch)
    else if p.sha256Hex(CanonicalDetail(p, claim)) != t.detailHash then Err(DetailHashMismatch)
    else
      var message := Join(CheckedFields(t, claim));
      match p.decodeHex(t.signature)
      case None => Err(InvalidSignatureHex)
      case Some(bytes) =>
        match p.readSignature(bytes)
        case None => Err(InvalidSignature)
        case Some(sig) => if p.checkSignature(publicKey, message, sig) then Ok(()) else Err(SignatureRejected)
  }

  /** A token from the server is accepted exactly until its expiry, for exactly the claims whose
      four fields and hashed detail it was issued for. */
  lemma SignedTokenAccepted(p: Primitives, key: Key, c: Claims, issued: int, claim: Claim, now: int)
    requires Lawful(p)
    ensures Verify(p, Sign(p, key, c, issued), claim, p.publicKey(key), now).Ok?
       <==> && now <= issued + LIFETIME
            && claim.requestId == c.requestId && claim.operation == c.operation
            && claim.database == c.database && claim.environment == c.environment
            && p.sha256Hex(CanonicalDetail(p, claim)) == c.detailHash
  {
    var t := Sign(p, key, c, issued);
    assert p.parseTime(t.expiresAt) == Some(issued + LIFETIME);
    var signed := Join(SignedFields(c, t.expiresAt));
    assert t.signature == p.signHex(key, signed);
    if claim.requestId == c.requestId && claim.operation == c.operation
       && claim.database == c.database && claim.environment == c.environment {
      assert CheckedFields(t, claim) == SignedFields(c, t.expiresAt);
      assert SignatureAccepted(p, p.publicKey(key), signed, t.signature);
    }
  }

  /** A migration request signed on the server is accepted for a claim that carries the same JSON
      detail with its object members in another order. */
  lemma ReorderedDetailAccepted(p: Primitives, key: Key, request: Claim, detail: string, role: string, requester: string,
                                issued: int, now: int)
    requires Lawful(p) && now <= issued + LIFETIME
    requires request.executionPlanJson.None?
    requires request.operation == "migrate_up" || request.operation == "migrate_down" || request.operation == "migrate_repair"
    requires p.parseJson(request.detail).Some? && p.parseJson(detail).Some?
    requires Equivalent(p.parseJson(request.detail).value, p.parseJson(detail).value)
    ensures var c := Claims(request.requestId, request.operation, request.environment, request.database,
                            p.sha256Hex(CanonicalDetail(p, request)), role, requester);
            Verify(p, Sign(p, key, c, issued), request.(detail := detail), p.publicKey(key), now).Ok?
  {
    var c := Claims(request.requestId, request.operation, request.environment, request.database,
                    p.sha256Hex(CanonicalDetail(p, request)), role, requester);
    CanonicalTextExactly(p, request.detail, detail);
    SignedTokenAccepted(p, key, c, issued, request.(detail := detail), now);
  }

  // ---------------------------------------------------------------------------
  // The server's side: what a token is issued for
  // ---------------------------------------------------------------------------

  datatype Operation = ExecuteSelect | ExecuteDml | MigrateUp | MigrateDown | MigrateStatus | MigrateRepair

  function OperationName(o: Operation): string {
    match o
    case ExecuteSelect => "execute_select"
    case ExecuteDml => "execute_dml"
    case MigrateUp => "migrate_up"
    case MigrateDown => "migrate_down"
    case MigrateStatus => "migrate_status"
    case MigrateRepair => "migrate_repair"
  }

  predicate ChangesSchema(o: Operation) {
    o.MigrateUp? || o.MigrateDown? || o.MigrateRepair?
  }

  datatype Request = Request(
    id: string, operation: Operation, environment: string, database: string,
    detail: string, executionPlanJson: Option<string>, requester: string
  )

  /** What the server hashes for a request. */
  function RequestDetail(p: Primitives, r: Request): string {
    match r.executionPlanJson
    case Some(plan) => plan
    case None => if ChangesSchema(r.operation) then CanonicalizeJson(p, r.detail) else r.detail
  }

  function Issue(p: Primitives, key: Key, r: Request, role: string, now: int): Token {
    Sign(p, key, Claims(r.id, OperationName(r.operation), r.environment, r.database,
                        p.sha256Hex(RequestDetail(p, r)), role, r.requester), now)
  }

  /** What an agent is given to execute is what was requested: the plan to the letter where there is one, otherwise
      the detail, to the letter for a query and as a JSON value for a migration. */
  ghost predicate SameWork(p: Primitives, r: Request, claim: Claim) {
    match (r.executionPlanJson, claim.executionPlanJson)
    case (Some(plan), Some(given)) => given == plan
    case (None, None) =>
      if !ChangesSchema(r.operation) then claim.detail == r.detail
      else
        (match (p.parseJson(r.detail), p.parseJson(claim.detail))
         case (Some(a), Some(b)) => Equivalent(a, b)
         case (None, None) => claim.detail == r.detail
         case _ => false)
    case (Some(plan), None) => HashedAs(p, r.operation, claim.detail, plan)
    case (None, Some(given)) => HashedAs(p, r.operation, r.detail, given)
  }

  /** A plan stands for a detail only if it is that text, or the sorted JSON of a migration's detail. */
  ghost predicate HashedAs(p: Primitives, o: Operation, detail: string, text: string) {
    if ChangesSchema(o) && p.parseJson(detail).Some? then text == p.printJson(SortValue(p.parseJson(detail).value))
    else text == detail
  }

  ghost predicate Injective(hash: string -> string) {
    forall x, y :: hash(x) == hash(y) ==> x == y
  }

  lemma SameWorkHashesAlike(p: Primitives, r: Request, claim: Claim)
    requires Lawful(p) && claim.operation == OperationName(r.operation)
    ensures CanonicalDetail(p, claim) == RequestDetail(p, r) <==> SameWork(p, r, claim)
  {
    CanonicalTextExactly(p, r.detail, claim.detail);
  }

  /** With a hash that no two texts share, an issued token is accepted exactly for five minutes, and exactly for a
      claim that names the same request, operation, database and environment and is for the same work. */
  lemma IssuedTokenAccepted(p: Primitives, key: Key, r: Request, role: string, issued: int, claim: Claim, now: int)
    requires Lawful(p) && Injective(p.sha256Hex)
    ensures Verify(p, Issue(p, key, r, role, issued), claim, p.publicKey(key), now).Ok? <==>
              && now <= issued + 300_000_000_000
              && claim.requestId == r.id && claim.operation == OperationName(r.operation)
              && claim.database == r.database && claim.environment == r.environment
              && SameWork(p, r, claim)
  {
    var c := Claims(r.id, OperationName(r.operation), r.environment, r.database,
                    p.sha256Hex(RequestDetail(p, r)), role, r.requester);
    SignedTokenAccepted(p, key, c, issued, claim, now);
    if claim.operation == OperationName(r.operation) {
      SameWorkHashesAlike(p, r, claim);
    }
  }

  /** Otherwise it is refused for the first of these reasons that applies, and for no other. */
  lemma IssuedTokenRefused(p: Primitives, key: Key, r: Request, role: string, issued: int, claim: Claim, now: int)
    requires Lawful(p) && Injective(p.sha256Hex)
    ensures var v := Verify(p, Issue(p, key, r, role, issued), claim, p.publicKey(key), now);
            if now > issued + 300_000_000_000 then v == Err(Expired)
            else if claim.requestId != r.id then v == Err(RequestIdMismatch)
            else if claim.operation != OperationName(r.operation) then v == Err(OperationMismatch)
            else if claim.database != r.database then v == Err(DatabaseMismatch)
            else if claim.environment != r.environment then v == Err(EnvironmentMismatch)
            else if !SameWork(p, r, claim) then v == Err(DetailHashMismatch)
            else v.Ok?
  {
    IssuedTokenAccepted(p, key, r, role, issued, claim, now);
    assert p.parseTime(Issue(p, key, r, role, issued).expiresAt) == Some(issued + LIFETIME);
    if claim.operation == OperationName(r.operation) {
      SameWorkHashesAlike(p, r, claim);
    }
  }

  /** Whatever the hash, the work itself is accepted, with the members of a migration's JSON in any order. */
  lemma SameWorkAccepted(p: Primitives, key: Key, r: Request, role: string, issued: int, claim: Claim, now: int)
    requires Lawful(p) && now <= issued + LIFETIME && SameWork(p, r, claim)
    requires claim.requestId == r.id && claim.operation == OperationName(r.operation)
    requires claim.database == r.database && claim.environment == r.environment
    ensures Verify(p, Issue(p, key, r, role, issued), claim, p.publicKey(key), now).Ok?
  {
    var c := Claims(r.id, OperationName(r.operation), r.environment, r.database,
                    p.sha256Hex(RequestDetail(p, r)), role, r.requester);
    SignedTokenAccepted(p, key, c, issued, claim, now);
    SameWorkHashesAlike(p, r, claim);
  }

  /** If no signed field contains the separator, any accepted token that carries the signature says what the server
      signed, field by field. */
  lemma AcceptedMeansSigned(p: Primitives, key: Key, c: Claims, issued: int, t: Token, claim: Claim, now: int)
    requires Lawful(p)
    requires t.signature == Sign(p, key, c, issued).signature
    requires Verify(p, t, claim, p.publicKey(key), now).Ok?
    requires AllPipeFree(SignedFields(c, p.formatTime(issued + LIFETIME)))
    ensures claim.requestId == c.requestId && claim.operation == c.operation
    ensures claim.environment == c.environment && claim.database == c.database
    ensures t.requesterRole == c.requesterRole && t.requesterSubjectId == c.requester
    ensures t.detailHash == c.detailHash == p.sha256Hex(CanonicalDetail(p, claim))
    ensures t.expiresAt == p.formatTime(issued + LIFETIME) && now <= issued + LIFETIME
    ensures CheckedFields(t, claim) == SignedFields(c, p.formatTime(issued + LIFETIME))
  {
    var signed := SignedFields(c, p.formatTime(issued + LIFETIME));
    var checked := CheckedFields(t, claim);
    assert SignatureAccepted(p, p.publicKey(key), Join(checked), p.signHex(key, Join(signed)));
    FreeFieldsDetermined(signed, checked);
    assert forall i :: 0 <= i < 8 ==> checked[i] == signed[i];
    assert checked[4] == signed[4] && checked[5] == signed[5];
  }

  /** Every token that is accepted with the signature made for `c` carries the fields of `c`. */
  ghost predicate SpeaksFor(p: Primitives, key: Key, c: Claims, issued: int, now: int) {
    forall t: Token, claim: Claim ::
      t.signature == Sign(p, key, c, issued).signature && Verify(p, t, claim, p.publicKey(key), now).Ok? ==>
        CheckedFields(t, claim) == SignedFields(c, p.formatTime(issued + LIFETIME))
  }

  /** While it has not expired, a signature speaks for its claims alone exactly when no signed field contains the
      separator. */
  lemma SpeaksForExactly(p: Primitives, key: Key, c: Claims, issued: int, detail: string, now: int)
    requires Lawful(p) && c.detailHash == p.sha256Hex(detail) && now <= issued + LIFETIME
    ensures SpeaksFor(p, key, c, issued, now) <==> AllPipeFree(SignedFields(c, p.formatTime(issued + LIFETIME)))
  {
    var signed := SignedFields(c, p.formatTime(issued + LIFETIME));
    if AllPipeFree(signed) {
      forall t: Token, claim: Claim | t.signature == Sign(p, key, c, issued).signature
                                      && Verify(p, t, claim, p.publicKey(key), now).Ok?
        ensures CheckedFields(t, claim) == signed
      {
        AcceptedMeansSigned(p, key, c, issued, t, claim, now);
      }
    } else {
      var i :| 0 <= i < |signed| && !PipeFree(signed[i]);
      assert i != 4 && i != 5;
      var l := if i == 3 || i == 7 then i - 1 else i;
      var x, y := MoveBoundary(signed[l], signed[l + 1]);
      var t, claim := OtherReading(p, key, c, issued, detail, now, l, x, y);
    }
  }

  /** Moving one boundary of the signed fields gives another token that is accepted. */
  lemma OtherReading(p: Primitives, key: Key, c: Claims, issued: int, detail: string, now: int,
                     l: nat, x: string, y: string)
    returns (t: Token, claim: Claim)
    requires Lawful(p) && c.detailHash == p.sha256Hex(detail) && now <= issued + LIFETIME
    requires l < 3 || l == 6
    requires var signed := SignedFields(c, p.formatTime(issued + LIFETIME));
             x + [PIPE] + y == signed[l] + [PIPE] + signed[l + 1] && x != signed[l]
    ensures t.signature == Sign(p, key, c, issued).signature && Verify(p, t, claim, p.publicKey(key), now).Ok?
    ensures CheckedFields(t, claim) != SignedFields(c, p.formatTime(issued + LIFETIME))
  {
    var expiresAt := p.formatTime(issued + LIFETIME);
    var signed := SignedFields(c, expiresAt);
    var gs := signed[l := x][l + 1 := y];
    JoinPair(signed, l, x, y);
    claim := Claim(gs[0], gs[1], gs[2], gs[3], "", Some(detail));
    t := Token(gs[0], gs[1], gs[2], gs[3], c.detailHash, expiresAt, p.signHex(key, Join(signed)), gs[6], gs[7]);
    assert CheckedFields(t, claim) == gs;
    assert gs[l] != signed[l];
    assert SignatureAccepted(p, p.publicKey(key), Join(gs), t.signature);
  }

  /** The witness: signed for role `r` and requester `x|y`, accepted for role `r|x` and requester `y`. */
  lemma BoundaryMoved(p: Primitives, key: Key, c: Claims, issued: int, claim: Claim, now: int)
    requires Lawful(p) && c.requesterRole == "r" && c.requester == "x|y"
    requires Verify(p, Sign(p, key, c, issued), claim, p.publicKey(key), now).Ok?
    ensures var t := Sign(p, key, c, issued).(requesterRole := "r|x", requesterSubjectId := "y");
            Verify(p, t, claim, p.publicKey(key), now).Ok?
  {
    var signed := SignedFields(c, p.formatTime(issued + LIFETIME));
    var t := Sign(p, key, c, issued).(requesterRole := "r|x", requesterSubjectId := "y");
    SignedTokenAccepted(p, key, c, issued, claim, now);
    assert "r|x" + [PIPE] + "y" == "r" + [PIPE] + "x|y";
    JoinPair(signed, 6, "r|x", "y");
    assert CheckedFields(t, claim) == signed[6 := "r|x"][7 := "y"];
    assert SignatureAccepted(p, p.publicKey(key), Join(CheckedFields(t, claim)), t.signature);
  }

  // ---------------------------------------------------------------------------
  // The laws can be met
  // ---------------------------------------------------------------------------

  function Unary(n: nat): (s: string)
    ensures |s| == n && PipeFree(s)
  {
    if n == 0 then "" else "1" + Unary(n - 1)
  }

  function SampleTime(t: int): (s: string)
    ensures PipeFree(s)
  {
    if t >= 0 then "+" + Unary(t) else "-" + Unary(-t)
  }

  function SampleParseTime(s: string): Option<int> {
    if s == "" then None else if s[0] == '+' then Some(|s| - 1) else Some(1 - |s|)
  }

  /** A text of twice the length, from which the text can be read back, without the separator. */
  function Masked(s: string): (m: string)
    ensures PipeFree(m) && |m| == 2 * |s|
  {
    if s == "" then "" else (if s[0] == PIPE then "b1" else [s[0], '0']) + Masked(s[1..])
  }

  lemma {:induction false} MaskedInjective(x: string, y: string)
    requires Masked(x) == Masked(y)
    ensures x == y
  {
    if x != "" {
      var m := Masked(x);
      assert m[2..] == Masked(x[1..]) && m[2..] == Masked(y[1..]);
      assert m[0] == (if x[0] == PIPE then 'b' else x[0]) && m[1] == (if x[0] == PIPE then '1' else '0');
      assert m[0] == (if y[0] == PIPE then 'b' else y[0]) && m[1] == (if y[0] == PIPE then '1' else '0');
      MaskedInjective(x[1..], y[1..]);
      assert x == [x[0]] + x[1..] && y == [y[0]] + y[1..];
    }
  }

  function SampleParseJson(s: string): Option<Json> {
    if s == "0" then Some(Null) else None
  }

  function SamplePrintJson(j: Json): string { "0" }

  function Sample(): Primitives {
    Primitives(SampleParseJson, SamplePrintJson, Masked, SampleTime, SampleParseTime,
               k => k, (k, m) => m, s => Some(s), s => Some(s), (k, m, sig) => m == sig)
  }

  lemma SampleTimeReadsBack(t: int)
    ensures SampleParseTime(SampleTime(t)) == Some(t)
  {
  }

  lemma SampleJsonReadsBack(s: string)
    requires SampleParseJson(s).Some?
    ensures ReadsBack(Sample(), SampleParseJson(s).value)
  {
    assert SortValue(Null) == Null;
    assert SampleParseJson("0") == Some(Null);
  }

  /** The laws can be met, so the results above are about something. */
  lemma LawsCanBeMet()
    ensures Lawful(Sample()) && Injective(Sample().sha256Hex)
  {
    var p := Sample();
    forall x, y | p.sha256Hex(x) == p.sha256Hex(y) ensures x == y {
      MaskedInjective(x, y);
    }
    forall t ensures p.parseTime(p.formatTime(t)) == Some(t) && PipeFree(p.formatTime(t)) {
      SampleTimeReadsBack(t);
    }
    forall s | p.parseJson(s).Some? ensures ReadsBack(p, p.parseJson(s).value) {
      SampleJsonReadsBack(s);
    }
  }
}
