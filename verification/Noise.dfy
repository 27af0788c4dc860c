/** noise_session_default.cpp and noise_service.cpp: the handshake and message-count state machine, and its table. */
module Noise {
  import opened Bytes
  import opened Text

  datatype Role = Initiator | Responder
  type StaticKey = k: bytes | |k| == 32 witness Zeros(32)

  datatype Session = Session(role: Role, established: bool, handshakeHash: Option<bytes>, messageCount: uint64)

  function NewSession(role: Role): Session {
    Session(role, false, None, 0)
  }

  /** The state both handshake operations leave; None stands for their exception. */
  function Handshaken(s: Session): (r: Option<Session>) {
    if s.established then None else Some(s.(established := true, handshakeHash := Some(Zeros(32))))
  }

  /** encrypt and decrypt: the data is not changed, the message is counted; None stands for the exception. */
  function Counted(s: Session): (r: Option<Session>) {
    if !s.established then None else Some(s.(messageCount := (s.messageCount + 1) % 0x1_0000_0000_0000_0000))
  }

  function InitMessage(key: StaticKey): bytes {
    [1, 2, 3] + key[..3]
  }

  function ResponseMessage(key: StaticKey): bytes {
    [4, 5, 6] + key[3..6]
  }

  // ---------------------------------------------------------------- runs of one session

  datatype SessionOp = Start | Process | Encrypt | Decrypt

  predicate IsHandshake(op: SessionOp) {
    op.Start? || op.Process?
  }

  function Attempt(s: Session, op: SessionOp): Option<Session> {
    if IsHandshake(op) then Handshaken(s) else Counted(s)
  }

  function StepSession(s: Session, op: SessionOp): Session {
    match Attempt(s, op) case Some(t) => t case None => s
  }

  function RunSession(role: Role, ops: seq<SessionOp>): Session {
    if ops == [] then NewSession(role) else StepSession(RunSession(role, ops[..|ops| - 1]), ops[|ops| - 1])
  }

  predicate Succeeds(role: Role, ops: seq<SessionOp>, i: nat)
    requires i < |ops|
  {
    Attempt(RunSession(role, ops[..i]), ops[i]).Some?
  }

  /** How many of the operations succeed: handshakes when `handshakes`, encryptions and decryptions otherwise. */
  function Successes(role: Role, ops: seq<SessionOp>, handshakes: bool): (n: nat) {
    if ops == [] then 0
    else
      var k := |ops| - 1;
      Successes(role, ops[..k], handshakes)
      + if IsHandshake(ops[k]) == handshakes && Succeeds(role, ops, k) then 1 else 0
  }

  /**
    In every run: at most one handshake succeeds, the session is established from the first one on and never
    afterwards otherwise, the hash is there exactly then, and the counter counts the successful messages.
   */
  lemma {:induction false} SessionRuns(role: Role, ops: seq<SessionOp>)
    ensures var s := RunSession(role, ops);
            && Successes(role, ops, true) <= 1
            && (s.established <==> Successes(role, ops, true) == 1)
            && (s.established <==> exists i :: 0 <= i < |ops| && IsHandshake(ops[i]))
            && (s.handshakeHash.Some? <==> s.established)
            && s.messageCount == Successes(role, ops, false) % 0x1_0000_0000_0000_0000
            && s.role == role
  {
    if ops != [] {
      var k := |ops| - 1;
      SessionRuns(role, ops[..k]);
      HandshakesSplit(ops, k);
      NextCount(Successes(role, ops[..k], false));
    }
  }

  lemma HandshakesSplit(ops: seq<SessionOp>, k: nat)
    requires k < |ops|
    ensures (exists i :: 0 <= i < k + 1 && IsHandshake(ops[i])) <==>
            IsHandshake(ops[k]) || exists i :: 0 <= i < k && IsHandshake(ops[..k][i])
  {
    assert forall i :: 0 <= i < k ==> ops[..k][i] == ops[i];
  }

  lemma NextCount(c: nat)
    ensures (c % 0x1_0000_0000_0000_0000 + 1) % 0x1_0000_0000_0000_0000 == (c + 1) % 0x1_0000_0000_0000_0000
  {
  }

  /** Messages succeed exactly after a handshake operation, so establishment never reverts. */
  lemma MessageSucceedsIffEstablished(role: Role, ops: seq<SessionOp>, i: nat)
    requires i < |ops| && !IsHandshake(ops[i])
    ensures Succeeds(role, ops, i) <==> exists j :: 0 <= j < i && IsHandshake(ops[j])
  {
    SessionRuns(role, ops[..i]);
    assert forall j :: 0 <= j < i ==> ops[..i][j] == ops[j];
  }

  // ---------------------------------------------------------------- roles

  function ResolveRole(localID: bytes, remoteID: bytes): Role {
    if Less(localID, remoteID) then Initiator else Responder
  }

  /** Two nodes that resolve their roles for each other never choose the same one. */
  lemma RolesAreOpposite(a: bytes, b: bytes)
    requires a != b
    ensures ResolveRole(a, b) != ResolveRole(b, a)
  {
    LessTrichotomy(a, b);
  }

  /** Of two nodes the one whose identity has the smaller byte at the first difference is the initiator. */
  lemma SmallerIdentityInitiates(x: bytes, y: bytes, k: nat)
    requires |x| == |y| && SmallerAt(x, y, k)
    ensures ResolveRole(HexOf(x), HexOf(y)) == Initiator && ResolveRole(HexOf(y), HexOf(x)) == Responder
  {
    SmallerIsLess(x, y, k);
    LessTrichotomy(x, y);
    HexKeepsOrder(x, y);
    HexKeepsOrder(y, x);
  }

  // ---------------------------------------------------------------- the session table

  type Table = map<bytes, Session>

  predicate HasEstablished(t: Table, id: bytes) {
    id in t && t[id].established
  }

  /** handleIncomingHandshake: create the session on demand, then process; None stands for the exception. */
  function Incoming(t: Table, id: bytes, localID: bytes): (r: Option<Table>) {
    var s := if id in t then t[id] else NewSession(ResolveRole(localID, id));
    match Handshaken(s) case Some(s') => Some(t[id := s']) case None => None
  }

  /** initiateHandshake: it needs a session that is there and not established. */
  function Initiated(t: Table, id: bytes): (r: Option<Table>) {
    if id !in t then None else match Handshaken(t[id]) case Some(s) => Some(t[id := s]) case None => None
  }

  /** encrypt or decrypt with the session of a peer. */
  function Used(t: Table, id: bytes): (r: Option<Table>) {
    if id !in t then None else match Counted(t[id]) case Some(s) => Some(t[id := s]) case None => None
  }

  ghost predicate AllEstablished(t: Table) {
    forall id :: id in t ==> t[id].established
  }

  // ---------------------------------------------------------------- the objects

  class NoiseSession {
    const role: Role
    const localStaticKey: StaticKey
    var sessionEstablished: bool
    var handshakeHash: Option<bytes>
    var messageCount: uint64

    ghost function State(): Session
      reads this
    {
      Session(role, sessionEstablished, handshakeHash, messageCount)
    }

    constructor (role: Role, key: StaticKey)
      ensures State() == NewSession(role) && localStaticKey == key
    {
      this.role, localStaticKey := role, key;
      sessionEstablished, handshakeHash, messageCount := false, None, 0;
    }

    method Encrypt(plaintext: bytes) returns (r: Option<bytes>)
      modifies this
      ensures r == (if old(sessionEstablished) then Some(plaintext) else None)
      ensures State() == StepSession(old(State()), SessionOp.Encrypt)
    {
      if !sessionEstablished {
        return None;
      }
      messageCount := (messageCount + 1) % 0x1_0000_0000_0000_0000;
      r := Some(plaintext);
    }

    method Decrypt(ciphertext: bytes) returns (r: Option<bytes>)
      modifies this
      ensures r == (if old(sessionEstablished) then Some(ciphertext) else None)
      ensures State() == StepSession(old(State()), SessionOp.Decrypt)
    {
      if !sessionEstablished {
        return None;
      }
      messageCount := (messageCount + 1) % 0x1_0000_0000_0000_0000;
      r := Some(ciphertext);
    }

    method StartHandshake() returns (r: Option<bytes>)
      modifies this
      ensures r == (if old(sessionEstablished) then None else Some(InitMessage(localStaticKey)))
      ensures State() == StepSession(old(State()), Start)
    {
      if sessionEstablished {
        return None;
      }
      sessionEstablished := true;
      handshakeHash := Some(Zeros(32));
      r := Some([1, 2, 3] + localStaticKey[..3]);
    }

    method ProcessHandshakeMessage(message: bytes) returns (r: Option<bytes>)
      modifies this
      ensures r == (if old(sessionEstablished) then None else Some(ResponseMessage(localStaticKey)))
      ensures State() == StepSession(old(State()), Process)
    {
      if sessionEstablished {
        return None;
      }
      sessionEstablished := true;
      handshakeHash := Some(Zeros(32));
      r := Some([4, 5, 6] + localStaticKey[3..6]);
    }
  }

  class NoiseService {
    const localStaticKey: StaticKey
    var sessions: map<bytes, NoiseSession>

    /** Every peer has a session object of its own, all with this service's key. */
    ghost predicate Valid()
      reads this, sessions.Values
    {
      && (forall a, b :: a in sessions && b in sessions && a != b ==> sessions[a] != sessions[b])
      && forall a :: a in sessions ==> sessions[a].localStaticKey == localStaticKey
    }

    ghost function View(): Table
      reads this, sessions.Values
    {
      map id | id in sessions :: sessions[id].State()
    }

    constructor (key: StaticKey)
      ensures Valid() && sessions == map[] && View() == map[] && localStaticKey == key
    {
      localStaticKey, sessions := key, map[];
    }

    method CreateSession(id: bytes, role: Role) returns (session: NoiseSession)
      requires Valid()
      modifies this
      ensures Valid() && fresh(session) && sessions == old(sessions)[id := session]
      ensures View() == old(View())[id := NewSession(role)]
    {
      session := new NoiseSession(role, localStaticKey);
      sessions := sessions[id := session];
    }

    method RemoveSession(id: bytes)
      requires Valid()
      modifies this
      ensures Valid() && View() == old(View()) - {id}
    {
      sessions := sessions - {id};
    }

    method ProcessFor(id: bytes, message: bytes) returns (r: Option<bytes>)
      requires Valid() && id in sessions
      modifies sessions.Values
      ensures Valid() && sessions == old(sessions)
      ensures View() == old(View())[id := StepSession(old(View())[id], Process)]
      ensures r == if old(View())[id].established then None else Some(ResponseMessage(localStaticKey))
    {
      assert sessions[id] in sessions.Values;
      r := sessions[id].ProcessHandshakeMessage(message);
      forall a | a in sessions && a != id ensures sessions[a].State() == old(sessions[a].State()) {
        assert sessions[a] != sessions[id];
      }
    }

    method HandleIncomingHandshake(id: bytes, message: bytes, localID: bytes) returns (r: Option<bytes>)
      requires Valid()
      modifies this, sessions.Values
      ensures Valid() && fresh(sessions.Values - old(sessions.Values))
      ensures match Incoming(old(View()), id, localID)
              case Some(t) => View() == t && r == Some(ResponseMessage(localStaticKey))
              case None => View() == old(View()) && r == None
    {
      ghost var before := View();
      if id !in sessions {
        var session := CreateSession(id, ResolveRole(localID, id));
        assert View() == before[id := NewSession(ResolveRole(localID, id))];
        assert sessions.Values <= old(sessions.Values) + {session};
        assert before[id := NewSession(ResolveRole(localID, id))][id := View()[id]] == View();
      }
      ghost var middle := View();
      r := ProcessFor(id, message);
      assert id in before && before[id].established ==> View() == before;
    }

    method InitiateHandshake(id: bytes) returns (r: Option<bytes>)
      requires Valid()
      modifies sessions.Values
      ensures Valid() && sessions == old(sessions)
      ensures match Initiated(old(View()), id)
              case Some(t) => View() == t && r == Some(InitMessage(localStaticKey))
              case None => View() == old(View()) && r == None
    {
      if id !in sessions {
        return None;
      }
      assert sessions[id] in sessions.Values;
      r := sessions[id].StartHandshake();
      forall a | a in sessions && a != id ensures sessions[a].State() == old(sessions[a].State()) {
        assert sessions[a] != sessions[id];
      }
      assert old(View())[id].established ==> View() == old(View());
    }

    method Decrypt(ciphertext: bytes, id: bytes) returns (r: Option<bytes>)
      requires Valid()
      modifies sessions.Values
      ensures Valid() && sessions == old(sessions)
      ensures match Used(old(View()), id)
              case Some(t) => View() == t && r == Some(ciphertext)
              case None => View() == old(View()) && r == None
    {
      if id !in sessions {
        return None;
      }
      assert sessions[id] in sessions.Values;
      r := sessions[id].Decrypt(ciphertext);
      forall a | a in sessions && a != id ensures sessions[a].State() == old(sessions[a].State()) {
        assert sessions[a] != sessions[id];
      }
      assert !old(View())[id].established ==> View() == old(View());
    }

    method HasEstablishedSession(id: bytes) returns (r: bool)
      requires Valid()
      ensures r == HasEstablished(View(), id)
    {
      r := id in sessions && sessions[id].sessionEstablished;
    }

    /** The order is that of an unordered map: any. */
    method GetEstablishedSessionIDs() returns (ids: seq<bytes>)
      requires Valid()
      ensures Distinct(ids)
      ensures forall id :: id in ids <==> HasEstablished(View(), id)
    {
      ids := [];
      var todo := sessions.Keys;
      while todo != {}
        invariant todo <= sessions.Keys
        invariant Distinct(ids) && forall id :: id in ids ==> id !in todo
        invariant forall id :: id in ids <==> id in sessions.Keys - todo && sessions[id].sessionEstablished
        decreases todo
      {
        var id :| id in todo;
        todo := todo - {id};
        if sessions[id].sessionEstablished {
          ids := ids + [id];
        }
      }
    }
  }
}
