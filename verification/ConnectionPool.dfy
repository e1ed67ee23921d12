/** The keep-alive connection pool: who owns each connection while many callers run `request_json`. */
module ConnectionPool {
  import opened Text

  datatype Key = Key(scheme: string, host: string, port: int)

  /** A connection object, numbered in order of creation. */
  type Conn = nat

  type Idle = map<Key, seq<Conn>>

  // ----- the two operations done under the pool's lock -----

  function Take(idle: Idle, key: Key): Option<(Idle, Conn)> {
    if key in idle && idle[key] != [] then
      var bucket := idle[key];
      Some((idle[key := bucket[..|bucket| - 1]], bucket[|bucket| - 1]))
    else None
  }

  function Bucket(idle: Idle, key: Key): seq<Conn> { if key in idle then idle[key] else [] }

  /** A checkout takes the connection parked last under its key, and nothing else, exactly if there is one. */
  lemma TakeExact(idle: Idle, key: Key)
    ensures Take(idle, key).None? <==> Bucket(idle, key) == []
    ensures match Take(idle, key)
            case None => true
            case Some((after, c)) =>
              Bucket(after, key) + [c] == Bucket(idle, key) && after.Keys == idle.Keys
              && forall k :: k in idle && k != key ==> after[k] == idle[k]
  {
  }

  /** `_release`: the new buckets, or None when the connection is refused and closed. The second case
      of a refusal has already created an empty bucket. */
  function Give(idle: Idle, key: Key, conn: Conn, maxPerHost: nat, maxHosts: nat): (Idle, bool) {
    if key !in idle && |idle| >= maxHosts then (idle, false)
    else if |Bucket(idle, key)| >= maxPerHost then (idle[key := Bucket(idle, key)], false)
    else (idle[key := Bucket(idle, key) + [conn]], true)
  }

  /** A release parks the connection last under its key, unless that bucket is full, or would be one too many. */
  lemma GiveExact(idle: Idle, key: Key, conn: Conn, maxPerHost: nat, maxHosts: nat)
    ensures var (after, kept) := Give(idle, key, conn, maxPerHost, maxHosts);
            && (kept <==> |Bucket(idle, key)| < maxPerHost && (key in idle || |idle| < maxHosts))
            && Bucket(after, key) == Bucket(idle, key) + (if kept then [conn] else [])
            && (forall k :: k != key ==> (k in after <==> k in idle) && Bucket(after, k) == Bucket(idle, k))
            && (kept ==> Take(after, key).Some? && Take(after, key).value.1 == conn)
  {
  }

  // ----- callers as interleaved steps -----

  /** Where a caller is in `request_json`. */
  datatype Pc =
    | Enter
    | First(conn: Conn)                      // holds a pooled or new connection, about to send
    | Second(conn: Conn)                     // holds the fresh connection of the one resend
    | Replied(conn: Conn, selfClosed: bool)  // a response started, body not read yet; `selfClosed`: http.client
                                             // has already closed the connection, as the body ends with the stream
    | Decoding(conn: Conn, released: bool)   // connection given up, body about to be decoded
    | Finished
  {
    predicate Holds() { First? || Second? || Replied? }
  }

  datatype Call = Call(key: Key, budgeted: bool, pc: Pc, sends: nat)

  /** `open`: the connection may have an open socket. */
  datatype Info = Info(key: Key, open: bool)

  datatype Pool = Pool(
    maxPerHost: nat, maxHosts: nat, idle: Idle, conns: map<Conn, Info>, created: nat, calls: map<nat, Call>)

  datatype Event =
    | Begin(t: nat, key: Key, budgeted: bool)
    | Checkout(t: nat)
    | NeverSent(t: nat)                  // the URL is refused or no connection object can be made
    | SendOk(t: nat, selfCloses: bool)
    | SendFails(t: nat, network: bool)   // network: HTTPException or OSError, which an unbudgeted caller resends
    | BodyFails(t: nat)
    | BadStatus(t: nat)
    | Reusable(t: nat)                   // body read, keep-alive
    | NotReusable(t: nat)
    | Decoded(t: nat)
    | DecodeFails(t: nat)

  function At(p: Pool, t: nat): Pc { if t in p.calls then p.calls[t].pc else Finished }

  function SetPc(p: Pool, t: nat, pc: Pc): Pool
    requires t in p.calls
  {
    p.(calls := p.calls[t := p.calls[t].(pc := pc)])
  }

  /** `conn.close()` */
  function CloseConn(p: Pool, c: Conn): Pool {
    if c in p.conns then p.(conns := p.conns[c := p.conns[c].(open := false)]) else p
  }

  function NewConn(p: Pool, key: Key): (Pool, Conn) {
    (p.(conns := p.conns[p.created := Info(key, false)], created := p.created + 1), p.created)
  }

  function CheckoutStep(p: Pool, t: nat): Pool
    requires t in p.calls
  {
    var key := p.calls[t].key;
    match Take(p.idle, key)
    case Some((idle, c)) => SetPc(p.(idle := idle), t, First(c))
    case None =>
      var (q, c) := NewConn(p, key);
      SetPc(q, t, First(c))
  }

  /** One request on the wire; the attempt itself opens the socket. */
  function CountSend(p: Pool, t: nat, c: Conn): Pool
    requires t in p.calls && c in p.conns
  {
    p.(calls := p.calls[t := p.calls[t].(sends := p.calls[t].sends + 1)],
       conns := p.conns[c := p.conns[c].(open := true)])
  }

  /** A response started. A body with neither a length nor chunks ends with the stream, and then `getresponse`
      has closed the connection, whatever the Connection header says; the body can still be read. */
  function RepliedSend(p: Pool, t: nat, selfCloses: bool): Pool
    requires t in p.calls && p.calls[t].pc.Holds() && p.calls[t].pc.conn in p.conns
  {
    var c := p.calls[t].pc.conn;
    var q := CountSend(p, t, c);
    SetPc(if selfCloses then CloseConn(q, c) else q, t, Replied(c, selfCloses))
  }

  function FailedSend(p: Pool, t: nat, network: bool): Pool
    requires t in p.calls && p.calls[t].pc.Holds() && p.calls[t].pc.conn in p.conns
  {
    var pc := p.calls[t].pc;
    var q := CloseConn(CountSend(p, t, pc.conn), pc.conn);
    if pc.First? && network && !p.calls[t].budgeted then
      var (r, c) := NewConn(q, p.calls[t].key);
      SetPc(r, t, Second(c))
    else SetPc(q, t, Finished)
  }

  function ReleaseStep(p: Pool, t: nat): Pool
    requires t in p.calls && p.calls[t].pc.Holds()
  {
    var call := p.calls[t];
    var (idle, kept) := Give(p.idle, call.key, call.pc.conn, p.maxPerHost, p.maxHosts);
    var q := p.(idle := idle);
    SetPc(if kept then q else CloseConn(q, call.pc.conn), t, Decoding(call.pc.conn, kept))
  }

  /** The pool after `e`; an event that cannot happen now changes nothing. */
  function Apply(p: Pool, e: Event): Pool {
    var pc := At(p, e.t);
    match e
    case Begin(t, key, budgeted) =>
      if t in p.calls && !pc.Finished? then p else p.(calls := p.calls[t := Call(key, budgeted, Enter, 0)])
    case Checkout(t) => if pc.Enter? then CheckoutStep(p, t) else p
    case NeverSent(t) =>
      if pc.Enter? then SetPc(p, t, Finished)
      else if pc.Second? then SetPc(CloseConn(p, pc.conn), t, Finished)
      else p
    case SendOk(t, selfCloses) =>
      if (pc.First? || pc.Second?) && pc.conn in p.conns then RepliedSend(p, t, selfCloses) else p
    case SendFails(t, network) =>
      if (pc.First? || pc.Second?) && pc.conn in p.conns then FailedSend(p, t, network) else p
    case BodyFails(t) => if pc.Replied? then SetPc(CloseConn(p, pc.conn), t, Finished) else p
    case BadStatus(t) => if pc.Replied? then SetPc(CloseConn(p, pc.conn), t, Finished) else p
    case Reusable(t) => if pc.Replied? then ReleaseStep(p, t) else p
    case NotReusable(t) => if pc.Replied? then SetPc(CloseConn(p, pc.conn), t, Decoding(pc.conn, false)) else p
    case Decoded(t) => if pc.Decoding? then SetPc(p, t, Finished) else p
    case DecodeFails(t) => if pc.Decoding? then SetPc(CloseConn(p, pc.conn), t, Finished) else p
  }

  function Run(p: Pool, es: seq<Event>): Pool
    decreases |es|
  {
    if es == [] then p else Run(Apply(p, es[0]), es[1..])
  }

  function Empty(maxPerHost: nat, maxHosts: nat): Pool { Pool(maxPerHost, maxHosts, map[], map[], 0, map[]) }

  // ----- ownership -----

  ghost predicate HeldBy(p: Pool, t: nat, c: Conn) { t in p.calls && p.calls[t].pc.Holds() && p.calls[t].pc.conn == c }

  ghost predicate Held(p: Pool, c: Conn) { exists t :: HeldBy(p, t, c) }

  ghost predicate IsIdle(p: Pool, c: Conn) { exists k :: k in p.idle && c in p.idle[k] }

  ghost predicate OneOwner(p: Pool) {
    && (forall t, u, c :: HeldBy(p, t, c) && HeldBy(p, u, c) ==> t == u)
    && (forall k, i, j :: k in p.idle && 0 <= i < j < |p.idle[k]| ==> p.idle[k][i] != p.idle[k][j])
    && (forall k, c, t :: k in p.idle && c in p.idle[k] ==> !HeldBy(p, t, c))
  }

  ghost predicate OwnKey(p: Pool) {
    && (forall t, c :: HeldBy(p, t, c) ==> c in p.conns && p.conns[c].key == p.calls[t].key)
    && (forall k, c :: k in p.idle && c in p.idle[k] ==> c in p.conns && p.conns[c].key == k)
  }

  ghost predicate NoLeak(p: Pool) {
    forall c :: c in p.conns && p.conns[c].open ==> Held(p, c) || IsIdle(p, c)
  }

  ghost predicate Bounded(p: Pool) {
    && |p.idle| <= p.maxHosts
    && (forall k :: k in p.idle ==> |p.idle[k]| <= p.maxPerHost)
  }

  predicate SendsAt(c: Call) {
    match c.pc
    case Enter => c.sends == 0
    case First(_) => c.sends == 0
    case Second(_) => c.sends == 1 && !c.budgeted
    case _ => c.sends <= if c.budgeted then 1 else 2
  }

  /** Connections are numbered 0, 1, ... and given-up ones are not held by their last user. */
  ghost predicate Bookkeeping(p: Pool) {
    && (forall c: Conn :: c in p.conns <==> c < p.created)
    && (forall t :: t in p.calls ==> SendsAt(p.calls[t]))
  }

  ghost predicate Owned(p: Pool) { OneOwner(p) && OwnKey(p) && NoLeak(p) && Bounded(p) && Bookkeeping(p) }

  // ----- every step keeps ownership -----

  lemma CloseKeeps(p: Pool, c: Conn)
    requires Owned(p)
    ensures Owned(CloseConn(p, c))
  {
    var q := CloseConn(p, c);
    assert forall t, d :: HeldBy(q, t, d) <==> HeldBy(p, t, d);
    forall d | d in q.conns && q.conns[d].open ensures Held(q, d) || IsIdle(q, d) {
      if Held(p, d) {
        var u :| HeldBy(p, u, d);
        assert HeldBy(q, u, d);
      } else {
        var k :| k in p.idle && d in p.idle[k];
        assert k in q.idle && d in q.idle[k];
      }
    }
  }

  function SetCall(p: Pool, t: nat, pc: Pc, sends: nat): Pool
    requires t in p.calls
  {
    p.(calls := p.calls[t := p.calls[t].(pc := pc, sends := sends)])
  }

  /** Moving caller `t` between states, when the connection it stops holding is closed or idle. */
  lemma MoveKeeps(p: Pool, t: nat, pc: Pc, sends: nat)
    requires Owned(p) && t in p.calls
    requires !pc.Holds() || (p.calls[t].pc.Holds() && pc.conn == p.calls[t].pc.conn)
    requires SendsAt(p.calls[t].(pc := pc, sends := sends))
    requires p.calls[t].pc.Holds() && !pc.Holds() ==> !p.conns[p.calls[t].pc.conn].open
    ensures Owned(SetCall(p, t, pc, sends))
  {
    var q := SetCall(p, t, pc, sends);
    assert forall u, d :: HeldBy(q, u, d) ==> HeldBy(p, u, d);
    forall d | d in q.conns && q.conns[d].open ensures Held(q, d) || IsIdle(q, d) {
      if Held(p, d) {
        var u :| HeldBy(p, u, d);
        assert HeldBy(q, u, d);
      } else {
        var k :| k in p.idle && d in p.idle[k];
        assert k in q.idle && d in q.idle[k];
      }
    }
  }

  function Opened(p: Pool, c: Conn): Pool
    requires c in p.conns
  {
    p.(conns := p.conns[c := p.conns[c].(open := true)])
  }

  lemma OpenKeeps(p: Pool, t: nat, c: Conn)
    requires Owned(p) && HeldBy(p, t, c)
    ensures Owned(Opened(p, c)) && HeldBy(Opened(p, c), t, c)
  {
    var q := Opened(p, c);
    assert forall u, d :: HeldBy(q, u, d) <==> HeldBy(p, u, d);
    forall d | d in q.conns && q.conns[d].open ensures Held(q, d) || IsIdle(q, d) {
      assert HeldBy(q, t, c);
      if Held(p, d) {
        var u :| HeldBy(p, u, d);
        assert HeldBy(q, u, d);
      } else if d != c {
        var k :| k in p.idle && d in p.idle[k];
        assert k in q.idle && d in q.idle[k];
      }
    }
  }

  /** Caller `t` becomes the holder of `c`, which nobody held and which is in no bucket any more. */
  lemma NewHolder(p: Pool, q: Pool, t: nat, c: Conn)
    requires OneOwner(p) && OwnKey(p) && t in p.calls && t in q.calls
    requires q.calls == p.calls[t := q.calls[t]] && q.calls[t].key == p.calls[t].key
    requires q.calls[t].pc == First(c) || q.calls[t].pc == Second(c)
    requires forall d :: d in p.conns ==> d in q.conns && q.conns[d].key == p.conns[d].key
    requires c in q.conns && q.conns[c].key == q.calls[t].key
    requires forall u :: !HeldBy(p, u, c)
    requires forall k :: k in q.idle ==> k in p.idle && q.idle[k] <= p.idle[k] && c !in q.idle[k]
    ensures OneOwner(q) && OwnKey(q)
  {
    forall u, d | HeldBy(q, u, d) ensures (u == t && d == c) || (u != t && d != c && HeldBy(p, u, d)) {
      if u != t {
        assert q.calls[u] == p.calls[u];
        assert HeldBy(p, u, d) && !HeldBy(p, u, c);
      }
    }
    forall k, d | k in q.idle && d in q.idle[k] ensures d in p.idle[k] && d != c { }
  }

  lemma Unknown(p: Pool, c: Conn)
    requires OwnKey(p) && c !in p.conns
    ensures forall u :: !HeldBy(p, u, c)
    ensures forall k :: k in p.idle ==> c !in p.idle[k]
  {
  }

  lemma NewConnOwners(p: Pool, t: nat, second: bool, sends: nat)
    requires Owned(p) && t in p.calls
    requires SendsAt(p.calls[t].(pc := if second then Second(p.created) else First(p.created), sends := sends))
    ensures var (n, c) := NewConn(p, p.calls[t].key);
            var q := SetCall(n, t, if second then Second(c) else First(c), sends);
            OneOwner(q) && OwnKey(q) && Bounded(q) && Bookkeeping(q)
  {
    hide NoLeak, OneOwner, OwnKey, Bounded, HeldBy;
    var (n, c) := NewConn(p, p.calls[t].key);
    var q := SetCall(n, t, if second then Second(c) else First(c), sends);
    Unknown(p, c);
    NewHolder(p, q, t, c);
    assert Bounded(q) by { SameIdleBounded(p, q); }
  }

  lemma SameIdleBounded(p: Pool, q: Pool)
    requires Bounded(p) && q.idle == p.idle && q.maxPerHost == p.maxPerHost && q.maxHosts == p.maxHosts
    ensures Bounded(q)
  {
  }

  /** Caller `t`, holding nothing open, gets a connection of its own. */
  lemma NewConnKeeps(p: Pool, t: nat, second: bool, sends: nat)
    requires Owned(p) && t in p.calls
    requires p.calls[t].pc.Holds() ==> !p.conns[p.calls[t].pc.conn].open
    requires SendsAt(p.calls[t].(pc := if second then Second(p.created) else First(p.created), sends := sends))
    ensures var (n, c) := NewConn(p, p.calls[t].key);
            Owned(SetCall(n, t, if second then Second(c) else First(c), sends))
  {
    NewConnOwners(p, t, second, sends);
    hide OneOwner, OwnKey, Bounded, Bookkeeping;
    var (n, c) := NewConn(p, p.calls[t].key);
    var q := SetCall(n, t, if second then Second(c) else First(c), sends);
    forall d | d in q.conns && q.conns[d].open ensures Held(q, d) || IsIdle(q, d) {
      if Held(p, d) {
        var u :| HeldBy(p, u, d);
        assert HeldBy(q, u, d);
      } else {
        var k :| k in p.idle && d in p.idle[k];
        assert k in q.idle && d in q.idle[k];
      }
    }
  }

  lemma TakenBucket(p: Pool, key: Key)
    requires OneOwner(p) && OwnKey(p) && Take(p.idle, key).Some?
    ensures var (idle, c) := Take(p.idle, key).value;
            && c in p.conns && p.conns[c].key == key && idle.Keys == p.idle.Keys
            && (forall u :: !HeldBy(p, u, c))
            && (forall k :: k in idle ==> idle[k] <= p.idle[k] && c !in idle[k])
  {
    var (idle, c) := Take(p.idle, key).value;
    assert c in p.idle[key] && c !in idle[key];
    forall k | k in p.idle && c in p.idle[k] ensures k == key { assert p.conns[c].key == k; }
  }

  lemma TakeOwners(p: Pool, t: nat)
    requires Owned(p) && t in p.calls && p.calls[t].pc.Enter? && Take(p.idle, p.calls[t].key).Some?
    ensures var q := CheckoutStep(p, t); OneOwner(q) && OwnKey(q) && Bounded(q) && Bookkeeping(q)
  {
    var q := CheckoutStep(p, t);
    hide OneOwner, OwnKey, NoLeak;
    TakenBucket(p, p.calls[t].key);
    NewHolder(p, q, t, Take(p.idle, p.calls[t].key).value.1);
    assert q.idle.Keys == p.idle.Keys;
  }

  lemma TakeKeeps(p: Pool, t: nat)
    requires Owned(p) && t in p.calls && p.calls[t].pc.Enter? && Take(p.idle, p.calls[t].key).Some?
    ensures Owned(CheckoutStep(p, t))
  {
    hide OneOwner, OwnKey, Bounded, Bookkeeping;
    TakeOwners(p, t);
    var c := Take(p.idle, p.calls[t].key).value.1;
    var q := CheckoutStep(p, t);
    assert HeldBy(q, t, c);
    forall d | d in q.conns && q.conns[d].open ensures Held(q, d) || IsIdle(q, d) {
      if Held(p, d) {
        var u :| HeldBy(p, u, d);
        assert HeldBy(q, u, d);
      } else {
        var k :| k in p.idle && d in p.idle[k];
        assert d == c || d in q.idle[k];
      }
    }
  }

  lemma BeginKeeps(p: Pool, t: nat, key: Key, budgeted: bool)
    requires Owned(p)
    ensures Owned(Apply(p, Begin(t, key, budgeted)))
  {
    var q := Apply(p, Begin(t, key, budgeted));
    assert forall u, d :: HeldBy(q, u, d) <==> HeldBy(p, u, d);
    forall d | d in q.conns && q.conns[d].open ensures Held(q, d) || IsIdle(q, d) {
      if Held(p, d) {
        var u :| HeldBy(p, u, d);
        assert HeldBy(q, u, d);
      } else {
        var k :| k in p.idle && d in p.idle[k];
        assert k in q.idle && d in q.idle[k];
      }
    }
  }

  /** Where connections are after one is given back: it is last in its own bucket, and all others stay. */
  lemma GiveShape(p: Pool, t: nat)
    requires Owned(p) && t in p.calls && p.calls[t].pc.Replied?
    requires Give(p.idle, p.calls[t].key, p.calls[t].pc.conn, p.maxPerHost, p.maxHosts).1
    ensures var (q, key, c) := (ReleaseStep(p, t), p.calls[t].key, p.calls[t].pc.conn);
            && q.conns == p.conns && q.created == p.created && HeldBy(p, t, c)
            && key in q.idle && q.idle[key] == Bucket(p.idle, key) + [c]
            && (forall k :: k in q.idle && k != key ==> k in p.idle && q.idle[k] == p.idle[k])
            && (forall u, d :: HeldBy(q, u, d) ==> u != t && HeldBy(p, u, d))
  {
    hide NoLeak, Bounded, Bookkeeping, OneOwner, OwnKey;
  }

  lemma GiveOneOwner(p: Pool, t: nat)
    requires Owned(p) && t in p.calls && p.calls[t].pc.Replied?
    requires Give(p.idle, p.calls[t].key, p.calls[t].pc.conn, p.maxPerHost, p.maxHosts).1
    ensures var q := ReleaseStep(p, t); OneOwner(q) && OwnKey(q)
  {
    GiveShape(p, t);
    var q, key, c := ReleaseStep(p, t), p.calls[t].key, p.calls[t].pc.conn;
    assert OneOwner(p) && OwnKey(p);
    assert p.calls[t].key == p.conns[c].key by { hide OneOwner; }
    hide Owned, ReleaseStep, Give;
    assert forall k, d :: k in q.idle && d in q.idle[k] ==> (k == key && d == c) || (k in p.idle && d in p.idle[k]);
  }

  lemma GiveOwners(p: Pool, t: nat)
    requires Owned(p) && t in p.calls && p.calls[t].pc.Replied?
    requires Give(p.idle, p.calls[t].key, p.calls[t].pc.conn, p.maxPerHost, p.maxHosts).1
    ensures var q := ReleaseStep(p, t); OneOwner(q) && OwnKey(q) && Bounded(q) && Bookkeeping(q)
  {
    GiveOneOwner(p, t);
    hide NoLeak, OneOwner, OwnKey;
    var key, c := p.calls[t].key, p.calls[t].pc.conn;
    assert ReleaseStep(p, t).idle[key] == Bucket(p.idle, key) + [c];
  }

  /** A kept connection goes from its holder to the end of its own bucket. */
  lemma GiveKeeps(p: Pool, t: nat)
    requires Owned(p) && t in p.calls && p.calls[t].pc.Replied?
    requires Give(p.idle, p.calls[t].key, p.calls[t].pc.conn, p.maxPerHost, p.maxHosts).1
    ensures Owned(ReleaseStep(p, t))
  {
    GiveOwners(p, t);
    hide OneOwner, OwnKey, Bounded, Bookkeeping;
    var key, c := p.calls[t].key, p.calls[t].pc.conn;
    var q := ReleaseStep(p, t);
    assert q.idle[key] == Bucket(p.idle, key) + [c];
    assert c in q.idle[key];
    forall d | d in q.conns && q.conns[d].open ensures Held(q, d) || IsIdle(q, d) {
      if Held(p, d) {
        var u :| HeldBy(p, u, d);
        assert d == c || HeldBy(q, u, d);
      } else {
        var k :| k in p.idle && d in p.idle[k];
        assert k in q.idle && d in q.idle[k];
      }
    }
  }

  /** A refused connection is closed; at most an empty bucket is added. */
  lemma RefuseKeeps(p: Pool, t: nat)
    requires Owned(p) && t in p.calls && p.calls[t].pc.Replied?
    requires !Give(p.idle, p.calls[t].key, p.calls[t].pc.conn, p.maxPerHost, p.maxHosts).1
    ensures Owned(ReleaseStep(p, t))
  {
    var key, c := p.calls[t].key, p.calls[t].pc.conn;
    assert HeldBy(p, t, c);
    var q := p.(idle := Give(p.idle, key, c, p.maxPerHost, p.maxHosts).0);
    EmptyBucketKeeps(p, q, key);
    CloseKeeps(q, c);
    var r := CloseConn(q, c);
    MoveKeeps(r, t, Decoding(c, false), r.calls[t].sends);
  }

  lemma EmptyBucketKeeps(p: Pool, q: Pool, key: Key)
    requires Owned(p)
    requires q == p || (q == p.(idle := p.idle[key := Bucket(p.idle, key)]) && (key in p.idle || |p.idle| < p.maxHosts))
    ensures Owned(q)
  {
    assert forall k, d :: k in q.idle && d in q.idle[k] ==> k in p.idle && d in p.idle[k];
    assert forall u, d :: HeldBy(q, u, d) <==> HeldBy(p, u, d);
    forall d | d in q.conns && q.conns[d].open ensures Held(q, d) || IsIdle(q, d) {
      if Held(p, d) {
        var u :| HeldBy(p, u, d);
        assert HeldBy(q, u, d);
      } else {
        var k :| k in p.idle && d in p.idle[k];
        assert k in q.idle && d in q.idle[k];
      }
    }
  }

  /** `t` gives up the connection it holds, closed, and goes on at `pc`. */
  lemma DropKeeps(p: Pool, t: nat, c: Conn, pc: Pc, sends: nat)
    requires Owned(p) && HeldBy(p, t, c) && !pc.Holds() && SendsAt(p.calls[t].(pc := pc, sends := sends))
    ensures Owned(SetCall(CloseConn(p, c), t, pc, sends))
  {
    CloseKeeps(p, c);
    MoveKeeps(CloseConn(p, c), t, pc, sends);
  }

  /** The pool after the request on `c` failed. */
  function Dropped(p: Pool, c: Conn): Pool
    requires c in p.conns
  {
    CloseConn(Opened(p, c), c)
  }

  lemma FailedShape(p: Pool, t: nat, network: bool)
    requires t in p.calls && (p.calls[t].pc.First? || p.calls[t].pc.Second?) && p.calls[t].pc.conn in p.conns
    ensures var call := p.calls[t];
            var closed := Dropped(p, call.pc.conn);
            Apply(p, SendFails(t, network)) ==
            if call.pc.First? && network && !call.budgeted then
              SetCall(NewConn(closed, call.key).0, t, Second(p.created), call.sends + 1)
            else SetCall(closed, t, Finished, call.sends + 1)
  {
  }

  lemma SendFailsKeeps(p: Pool, t: nat, network: bool)
    requires Owned(p) && t in p.calls && (p.calls[t].pc.First? || p.calls[t].pc.Second?)
    ensures Owned(Apply(p, SendFails(t, network)))
  {
    hide OneOwner, NoLeak, Bounded, Apply, FailedSend;
    var call := p.calls[t];
    var c := call.pc.conn;
    assert HeldBy(p, t, c);
    OpenKeeps(p, t, c);
    CloseKeeps(Opened(p, c), c);
    FailedShape(p, t, network);
    if call.pc.First? && network && !call.budgeted {
      NewConnKeeps(Dropped(p, c), t, true, 1);
    } else {
      MoveKeeps(Dropped(p, c), t, Finished, call.sends + 1);
    }
  }

  lemma SendOkKeeps(p: Pool, t: nat, selfCloses: bool)
    requires Owned(p) && t in p.calls && (p.calls[t].pc.First? || p.calls[t].pc.Second?)
    ensures Owned(Apply(p, SendOk(t, selfCloses)))
  {
    hide OneOwner, NoLeak, Bounded;
    var call := p.calls[t];
    var c := call.pc.conn;
    assert HeldBy(p, t, c);
    OpenKeeps(p, t, c);
    CloseKeeps(Opened(p, c), c);
    var q := if selfCloses then CloseConn(Opened(p, c), c) else Opened(p, c);
    MoveKeeps(q, t, Replied(c, selfCloses), call.sends + 1);
    hide Owned;
    assert Apply(p, SendOk(t, selfCloses)) == SetCall(q, t, Replied(c, selfCloses), call.sends + 1);
  }

  lemma NeverSentKeeps(p: Pool, t: nat)
    requires Owned(p) && t in p.calls && (p.calls[t].pc.Enter? || p.calls[t].pc.Second?)
    ensures Owned(Apply(p, NeverSent(t)))
  {
    hide OneOwner, OwnKey, NoLeak, Bounded;
    if p.calls[t].pc.Second? {
      DropKeeps(p, t, p.calls[t].pc.conn, Finished, p.calls[t].sends);
    } else {
      MoveKeeps(p, t, Finished, p.calls[t].sends);
    }
  }

  /** No step of any caller breaks ownership, leaks a connection, or overfills the pool. */
  lemma StepKeepsOwned(p: Pool, e: Event)
    requires Owned(p)
    ensures Owned(Apply(p, e))
  {
    hide OneOwner, OwnKey, NoLeak, Bounded, Bookkeeping, CheckoutStep, FailedSend, RepliedSend, ReleaseStep, CountSend;
    var t := e.t;
    var pc := At(p, t);
    match e
    case Begin(_, key, budgeted) => BeginKeeps(p, t, key, budgeted);
    case Checkout(_) => if pc.Enter? { CheckoutKeeps(p, t); }
    case NeverSent(_) => if pc.Enter? || pc.Second? { NeverSentKeeps(p, t); }
    case SendOk(_, selfCloses) => if pc.First? || pc.Second? { SendOkKeeps(p, t, selfCloses); }
    case SendFails(_, network) => if pc.First? || pc.Second? { SendFailsKeeps(p, t, network); }
    case Reusable(_) => if pc.Replied? { ReleaseKeeps(p, t); }
    case _ => if pc.Replied? || pc.Decoding? { EndKeeps(p, e); }
  }

  lemma CheckoutKeeps(p: Pool, t: nat)
    requires Owned(p) && t in p.calls && p.calls[t].pc.Enter?
    ensures Owned(CheckoutStep(p, t))
  {
    if Take(p.idle, p.calls[t].key).Some? {
      TakeKeeps(p, t);
    } else {
      NewConnKeeps(p, t, false, 0);
      assert CheckoutStep(p, t).calls == SetCall(NewConn(p, p.calls[t].key).0, t, First(p.created), 0).calls;
    }
  }

  lemma ReleaseKeeps(p: Pool, t: nat)
    requires Owned(p) && t in p.calls && p.calls[t].pc.Replied?
    ensures Owned(ReleaseStep(p, t))
  {
    if Give(p.idle, p.calls[t].key, p.calls[t].pc.conn, p.maxPerHost, p.maxHosts).1 {
      GiveKeeps(p, t);
    } else {
      RefuseKeeps(p, t);
    }
  }

  lemma EndKeeps(p: Pool, e: Event)
    requires Owned(p) && e.t in p.calls && (p.calls[e.t].pc.Replied? || p.calls[e.t].pc.Decoding?)
    requires e.BodyFails? || e.BadStatus? || e.NotReusable? || e.Decoded? || e.DecodeFails?
    ensures Owned(Apply(p, e))
  {
    var t := e.t;
    var call := p.calls[t];
    if call.pc.Replied? {
      assert HeldBy(p, t, call.pc.conn);
      DropKeeps(p, t, call.pc.conn, if e.NotReusable? then Decoding(call.pc.conn, false) else Finished, call.sends);
    } else {
      CloseKeeps(p, call.pc.conn);
      MoveKeeps(CloseConn(p, call.pc.conn), t, Finished, call.sends);
      MoveKeeps(p, t, Finished, call.sends);
    }
  }

  /** Every interleaving of any number of calls keeps ownership. */
  lemma {:induction false} RunKeepsOwned(p: Pool, es: seq<Event>)
    requires Owned(p)
    ensures Owned(Run(p, es))
    decreases |es|
  {
    if es != [] {
      StepKeepsOwned(p, es[0]);
      RunKeepsOwned(Apply(p, es[0]), es[1..]);
    }
  }

  /** From an empty pool: one owner or none, never a leak, within both bounds, at most one send per
      budgeted call and two per other call. */
  lemma PoolIsSafe(maxPerHost: nat, maxHosts: nat, es: seq<Event>)
    ensures Owned(Run(Empty(maxPerHost, maxHosts), es))
  {
    RunKeepsOwned(Empty(maxPerHost, maxHosts), es);
  }

  // ----- when an idle connection can be a closed one -----

  /** Nobody but its own reader has closed a connection that is idle or being read. */
  ghost predicate Alive(p: Pool) {
    && (forall k, c :: k in p.idle && c in p.idle[k] ==> c in p.conns && p.conns[c].open)
    && (forall t :: t in p.calls && p.calls[t].pc.Replied? && !p.calls[t].pc.selfClosed ==>
          p.calls[t].pc.conn in p.conns && p.conns[p.calls[t].pc.conn].open)
  }

  /** A connection that http.client closed stays closed while its body is read. */
  ghost predicate Shut(p: Pool) {
    forall t :: t in p.calls && p.calls[t].pc.Replied? && p.calls[t].pc.selfClosed ==>
      p.calls[t].pc.conn in p.conns && !p.conns[p.calls[t].pc.conn].open
  }

  /** What a step does to other callers' connections: nothing is opened. */
  lemma OnlyOwnOpens(p: Pool, e: Event, u: nat)
    requires Owned(p) && u in p.calls && u != e.t && p.calls[u].pc.Holds()
    ensures u in Apply(p, e).calls && Apply(p, e).calls[u] == p.calls[u]
    ensures var c := p.calls[u].pc.conn;
            c in p.conns && c in Apply(p, e).conns && (Apply(p, e).conns[c].open ==> p.conns[c].open)
  {
    hide NoLeak, Bounded;
    assert HeldBy(p, u, p.calls[u].pc.conn);
    if At(p, e.t).Holds() {
      assert HeldBy(p, e.t, At(p, e.t).conn);
    }
  }

  lemma StepShut(p: Pool, e: Event)
    requires Owned(p) && Shut(p)
    ensures Shut(Apply(p, e))
  {
    var q := Apply(p, e);
    forall u | u in q.calls && q.calls[u].pc.Replied? && q.calls[u].pc.selfClosed
      ensures q.calls[u].pc.conn in q.conns && !q.conns[q.calls[u].pc.conn].open
    {
      hide Apply, Owned;
      if u == e.t {
        OwnReply(p, e);
      } else {
        StillThere(p, e, u);
        OnlyOwnOpens(p, e, u);
      }
    }
  }

  lemma StillThere(p: Pool, e: Event, u: nat)
    requires u != e.t
    ensures u in Apply(p, e).calls <==> u in p.calls
    ensures u in p.calls ==> Apply(p, e).calls[u] == p.calls[u]
  {
    hide Take, Give, Bucket;
  }

  /** A caller's own reply: closed from the start, or from before. */
  lemma OwnReply(p: Pool, e: Event)
    requires Owned(p) && Shut(p) && e.t in Apply(p, e).calls
    requires Apply(p, e).calls[e.t].pc.Replied? && Apply(p, e).calls[e.t].pc.selfClosed
    ensures var q := Apply(p, e); q.calls[e.t].pc.conn in q.conns && !q.conns[q.calls[e.t].pc.conn].open
  {
    hide NoLeak, Bounded, OneOwner, OwnKey;
  }

  ghost predicate InUse(p: Pool, c: Conn) {
    IsIdle(p, c) || exists t :: t in p.calls && p.calls[t].pc == Replied(c, false)
  }

  /** The caller closes, after a decode failure, a connection it no longer owns. */
  ghost predicate ClosesShared(p: Pool, e: Event) {
    e.DecodeFails? && At(p, e.t).Decoding? && InUse(p, At(p, e.t).conn)
  }

  /** The caller gives back a connection that http.client closed, and the bucket takes it. */
  predicate ParksClosed(p: Pool, e: Event) {
    && e.Reusable? && At(p, e.t).Replied? && At(p, e.t).selfClosed
    && Give(p.idle, p.calls[e.t].key, At(p, e.t).conn, p.maxPerHost, p.maxHosts).1
  }

  lemma DecodeFailsAlive(p: Pool, t: nat)
    requires Owned(p) && Alive(p) && t in p.calls && p.calls[t].pc.Decoding?
    ensures Alive(Apply(p, DecodeFails(t))) <==> !ClosesShared(p, DecodeFails(t))
  {
    var c := p.calls[t].pc.conn;
    var q := Apply(p, DecodeFails(t));
    if ClosesShared(p, DecodeFails(t)) {
      if IsIdle(p, c) {
        var k :| k in p.idle && c in p.idle[k];
        assert c in q.idle[k] && !q.conns[c].open;
      } else {
        var u :| u in p.calls && p.calls[u].pc == Replied(c, false);
        assert q.calls[u].pc == Replied(c, false) && !q.conns[c].open;
      }
    } else {
      assert forall k :: k in q.idle ==> c !in q.idle[k] by { assert forall k :: k in p.idle ==> c !in p.idle[k]; }
    }
  }

  /** A holder closing its own connection hurts nobody else. */
  lemma OwnerClosesAlive(p: Pool, t: nat, c: Conn, pc: Pc)
    requires Owned(p) && Alive(p) && HeldBy(p, t, c) && !pc.Replied?
    ensures Alive(SetPc(CloseConn(p, c), t, pc))
  {
    var q := SetPc(CloseConn(p, c), t, pc);
    assert forall k, d :: k in q.idle && d in q.idle[k] ==> d in p.idle[k] && d != c;
    forall u | u in q.calls && q.calls[u].pc.Replied? && !q.calls[u].pc.selfClosed
      ensures q.conns[q.calls[u].pc.conn].open
    {
      assert HeldBy(p, u, p.calls[u].pc.conn);
    }
  }

  /** A send changes no other connection and no bucket. */
  lemma SendLeaves(p: Pool, e: Event, d: Conn)
    requires e.t in p.calls && (p.calls[e.t].pc.First? || p.calls[e.t].pc.Second?) && (e.SendOk? || e.SendFails?)
    requires Bookkeeping(p)
    ensures Apply(p, e).idle == p.idle
    ensures d in p.conns && d != p.calls[e.t].pc.conn ==> d in Apply(p, e).conns && Apply(p, e).conns[d] == p.conns[d]
  {
  }

  lemma OwnReplyOpen(p: Pool, e: Event)
    requires e.t in p.calls && (p.calls[e.t].pc.First? || p.calls[e.t].pc.Second?) && (e.SendOk? || e.SendFails?)
    requires p.calls[e.t].pc.conn in p.conns
    ensures var q := Apply(p, e);
            q.calls[e.t].pc.Replied? && !q.calls[e.t].pc.selfClosed ==>
              q.calls[e.t].pc.conn in q.conns && q.conns[q.calls[e.t].pc.conn].open
  {
  }

  lemma SendAlive(p: Pool, e: Event)
    requires Owned(p) && Alive(p) && e.t in p.calls && (p.calls[e.t].pc.First? || p.calls[e.t].pc.Second?)
    requires e.SendOk? || e.SendFails?
    ensures Alive(Apply(p, e))
  {
    hide NoLeak, Bounded, Apply, Bookkeeping;
    var c := p.calls[e.t].pc.conn;
    assert HeldBy(p, e.t, c);
    var q := Apply(p, e);
    SendLeaves(p, e, c);
    forall k, d | k in q.idle && d in q.idle[k] ensures d in q.conns && q.conns[d].open {
      assert k in p.idle && d in p.idle[k] && d != c;
      SendLeaves(p, e, d);
    }
    forall u | u in q.calls && q.calls[u].pc.Replied? && !q.calls[u].pc.selfClosed
      ensures q.calls[u].pc.conn in q.conns && q.conns[q.calls[u].pc.conn].open
    {
      if u == e.t {
        OwnReplyOpen(p, e);
      } else {
        StillThere(p, e, u);
        assert HeldBy(p, u, p.calls[u].pc.conn);
        SendLeaves(p, e, p.calls[u].pc.conn);
      }
    }
  }

  lemma GiveAlive(p: Pool, t: nat)
    requires Owned(p) && Alive(p) && t in p.calls && p.calls[t].pc.Replied?
    requires Give(p.idle, p.calls[t].key, p.calls[t].pc.conn, p.maxPerHost, p.maxHosts).1
    requires p.calls[t].pc.selfClosed ==> !p.conns[p.calls[t].pc.conn].open
    ensures Alive(ReleaseStep(p, t)) <==> !p.calls[t].pc.selfClosed
  {
    hide NoLeak, OneOwner, Bounded, Bookkeeping;
    var key, c := p.calls[t].key, p.calls[t].pc.conn;
    assert HeldBy(p, t, c);
    var q := ReleaseStep(p, t);
    assert forall k, d :: k in q.idle && d in q.idle[k] ==> d == c || (k in p.idle && d in p.idle[k]);
    assert q.idle[key] == Bucket(p.idle, key) + [c] && c in q.idle[key];
  }

  lemma RefuseAlive(p: Pool, t: nat)
    requires Owned(p) && Alive(p) && t in p.calls && p.calls[t].pc.Replied?
    requires !Give(p.idle, p.calls[t].key, p.calls[t].pc.conn, p.maxPerHost, p.maxHosts).1
    ensures Alive(ReleaseStep(p, t))
  {
    hide NoLeak, OwnKey, OneOwner, Bounded, Bookkeeping;
    var key, c := p.calls[t].key, p.calls[t].pc.conn;
    assert HeldBy(p, t, c);
    var q := p.(idle := Give(p.idle, key, c, p.maxPerHost, p.maxHosts).0);
    EmptyBucketKeeps(p, q, key);
    assert forall k, d :: k in q.idle && d in q.idle[k] ==> k in p.idle && d in p.idle[k];
    OwnerClosesAlive(q, t, c, Decoding(c, false));
  }

  lemma ReleaseAlive(p: Pool, t: nat)
    requires Owned(p) && Alive(p) && Shut(p) && t in p.calls && p.calls[t].pc.Replied?
    ensures Alive(ReleaseStep(p, t)) <==> !ParksClosed(p, Reusable(t))
  {
    hide Alive, NoLeak, OwnKey, OneOwner, Bounded, Bookkeeping, ReleaseStep;
    assert At(p, t) == p.calls[t].pc;
    if Give(p.idle, p.calls[t].key, p.calls[t].pc.conn, p.maxPerHost, p.maxHosts).1 {
      GiveAlive(p, t);
    } else {
      RefuseAlive(p, t);
    }
  }

  /** No bucket gains a connection, none is closed, and nobody newly reads. */
  lemma QuietAlive(p: Pool, q: Pool)
    requires Alive(p)
    requires forall k :: k in q.idle ==> k in p.idle && q.idle[k] <= p.idle[k]
    requires forall d :: d in p.conns ==> d in q.conns && q.conns[d] == p.conns[d]
    requires forall u :: u in q.calls && q.calls[u].pc.Replied? ==> u in p.calls && p.calls[u].pc == q.calls[u].pc
    ensures Alive(q)
  {
    assert forall k, d :: k in q.idle && d in q.idle[k] ==> k in p.idle && d in p.idle[k];
  }

  lemma CheckoutAlive(p: Pool, t: nat)
    requires Bookkeeping(p) && Alive(p) && t in p.calls && p.calls[t].pc.Enter?
    ensures Alive(CheckoutStep(p, t))
  {
    hide Alive;
    QuietAlive(p, CheckoutStep(p, t));
  }

  lemma NeverSentAlive(p: Pool, t: nat)
    requires Owned(p) && Alive(p) && t in p.calls && (p.calls[t].pc.Enter? || p.calls[t].pc.Second?)
    ensures Alive(Apply(p, NeverSent(t)))
  {
    hide Alive, Owned;
    if p.calls[t].pc.Second? {
      OwnerClosesAlive(p, t, p.calls[t].pc.conn, Finished);
    } else {
      QuietAlive(p, Apply(p, NeverSent(t)));
    }
  }

  /** Idle connections, and connections being read, stay open at every step but exactly two kinds: a decode
      failure whose connection is, by then, idle again or in another reader's hands; and the release of a
      connection that http.client had closed because its body ended with the stream. */
  lemma StepAlive(p: Pool, e: Event)
    requires Owned(p) && Alive(p) && Shut(p)
    ensures Alive(Apply(p, e)) <==> !ClosesShared(p, e) && !ParksClosed(p, e)
  {
    hide Owned, Alive, Shut, ClosesShared, ParksClosed, CheckoutStep, FailedSend, RepliedSend, ReleaseStep;
    hide CountSend, InUse;
    var t := e.t;
    var pc := At(p, t);
    OnlyDecodeFails(p, e);
    match e
    case DecodeFails(_) => if pc.Decoding? { DecodeFailsAlive(p, t); }
    case Reusable(_) => if pc.Replied? { ReleaseAlive(p, t); }
    case SendOk(_, _) => if pc.First? || pc.Second? { SendAlive(p, e); }
    case SendFails(_, _) => if pc.First? || pc.Second? { SendAlive(p, e); }
    case NeverSent(_) => if pc.Enter? || pc.Second? { NeverSentAlive(p, t); }
    case Begin(_, _, _) => QuietAlive(p, Apply(p, e));
    case Decoded(_) => QuietAlive(p, Apply(p, e));
    case Checkout(_) => if pc.Enter? { CheckoutAlive(p, t) by { OwnedParts(p); } }
    case NotReusable(_) => if pc.Replied? { OwnerClosesAlive(p, t, pc.conn, Decoding(pc.conn, false)); }
    case BodyFails(_) => if pc.Replied? { OwnerClosesAlive(p, t, pc.conn, Finished); }
    case BadStatus(_) => if pc.Replied? { OwnerClosesAlive(p, t, pc.conn, Finished); }
  }

  lemma OwnedParts(p: Pool)
    requires Owned(p)
    ensures Bookkeeping(p)
  {
  }

  lemma OnlyDecodeFails(p: Pool, e: Event)
    ensures ClosesShared(p, e) ==> e.DecodeFails? && At(p, e.t).Decoding?
    ensures ParksClosed(p, e) ==> e.Reusable? && At(p, e.t).Replied?
  {
  }

  // ----- the same over whole runs -----

  ghost predicate Somewhere(p: Pool, c: Conn) { Held(p, c) || IsIdle(p, c) }

  /** A connection closed by its last user stays out of every bucket and every caller's hands. */
  ghost predicate GivenUp(p: Pool) {
    forall t :: t in p.calls && p.calls[t].pc.Decoding? && !p.calls[t].pc.released ==>
      p.calls[t].pc.conn < p.created && !Somewhere(p, p.calls[t].pc.conn)
  }

  lemma TakeGoesNowhereNew(p: Pool, t: nat, d: Conn)
    requires Owned(p) && t in p.calls && p.calls[t].pc.Enter? && d < p.created
    ensures Somewhere(CheckoutStep(p, t), d) ==> Somewhere(p, d)
  {
    var q := CheckoutStep(p, t);
    if Held(q, d) {
      var u :| HeldBy(q, u, d);
      assert u != t ==> HeldBy(p, u, d);
      assert u == t ==> d in p.idle[p.calls[t].key];
    } else if IsIdle(q, d) {
      var k :| k in q.idle && d in q.idle[k];
      assert k in p.idle && d in p.idle[k];
    }
  }

  lemma ReleaseGoesNowhereNew(p: Pool, t: nat, d: Conn)
    requires Owned(p) && t in p.calls && p.calls[t].pc.Replied?
    ensures Somewhere(ReleaseStep(p, t), d) ==> Somewhere(p, d)
    ensures !Give(p.idle, p.calls[t].key, p.calls[t].pc.conn, p.maxPerHost, p.maxHosts).1
            ==> !Somewhere(ReleaseStep(p, t), p.calls[t].pc.conn)
  {
    var key, c := p.calls[t].key, p.calls[t].pc.conn;
    var q := ReleaseStep(p, t);
    assert HeldBy(p, t, c);
    if Held(q, d) {
      var u :| HeldBy(q, u, d);
      assert HeldBy(p, u, d);
    } else if IsIdle(q, d) {
      var k :| k in q.idle && d in q.idle[k];
      assert d == c || (k in p.idle && d in p.idle[k]);
    }
    assert forall u :: HeldBy(q, u, c) ==> HeldBy(p, u, c) && u != t;
  }

  /** Steps that neither take from nor give to a bucket. */
  lemma OtherGoesNowhereNew(p: Pool, e: Event, d: Conn)
    requires Owned(p) && !e.Checkout? && !e.Reusable? && d < p.created
    ensures Somewhere(Apply(p, e), d) ==> Somewhere(p, d)
    ensures e.NotReusable? && At(p, e.t).Replied? ==> !Somewhere(Apply(p, e), At(p, e.t).conn)
  {
    hide NoLeak, Bounded, OwnKey, Bookkeeping;
    var q := Apply(p, e);
    assert q.idle == p.idle;
    if Held(q, d) {
      var u :| HeldBy(q, u, d);
      assert HeldBy(p, u, d);
    }
    if e.NotReusable? && At(p, e.t).Replied? {
      assert HeldBy(p, e.t, At(p, e.t).conn);
      assert forall u, c :: HeldBy(q, u, c) ==> HeldBy(p, u, c) && u != e.t;
    }
  }

  lemma NowhereNew(p: Pool, e: Event, d: Conn)
    requires Owned(p) && d < p.created && Somewhere(Apply(p, e), d)
    ensures Somewhere(p, d)
  {
    hide Owned, Somewhere, CheckoutStep, FailedSend, RepliedSend, ReleaseStep, CountSend;
    if e.Checkout? {
      if At(p, e.t).Enter? { TakeGoesNowhereNew(p, e.t, d); }
    } else if e.Reusable? {
      if At(p, e.t).Replied? { ReleaseGoesNowhereNew(p, e.t, d); }
    } else {
      OtherGoesNowhereNew(p, e, d);
    }
  }

  /** A caller that newly gives up a connection without releasing it. */
  lemma NewlyGivenUp(p: Pool, e: Event, t: nat)
    requires Owned(p)
    requires var q := Apply(p, e);
             && t in q.calls && q.calls[t].pc.Decoding? && !q.calls[t].pc.released
             && (t !in p.calls || p.calls[t] != q.calls[t])
    ensures var q := Apply(p, e); q.calls[t].pc.conn < q.created && !Somewhere(q, q.calls[t].pc.conn)
  {
    assert t == e.t;
    assert At(p, t).Replied? && HeldBy(p, t, At(p, t).conn);
    hide Owned, Somewhere, HeldBy;
    if e.Reusable? {
      ReleaseGoesNowhereNew(p, t, At(p, t).conn);
    } else {
      OtherGoesNowhereNew(p, e, At(p, t).conn);
    }
  }

  lemma StepGivenUp(p: Pool, e: Event)
    requires Owned(p) && GivenUp(p)
    ensures GivenUp(Apply(p, e))
  {
    var q := Apply(p, e);
    assert p.created <= q.created;
    forall t | t in q.calls && q.calls[t].pc.Decoding? && !q.calls[t].pc.released
      ensures q.calls[t].pc.conn < q.created && !Somewhere(q, q.calls[t].pc.conn)
    {
      hide Apply, Somewhere, Owned;
      if t in p.calls && p.calls[t] == q.calls[t] {
        if Somewhere(q, q.calls[t].pc.conn) {
          NowhereNew(p, e, q.calls[t].pc.conn);
        }
      } else {
        NewlyGivenUp(p, e, t);
      }
    }
  }

  /** The body of a response whose connection went back to the pool fails to decode. */
  predicate ReleasedBodyFails(p: Pool, e: Event) { e.DecodeFails? && At(p, e.t).Decoding? && At(p, e.t).released }

  /** A response whose body ended with the stream is taken for reusable. */
  predicate ReleasesClosed(p: Pool, e: Event) { e.Reusable? && At(p, e.t).Replied? && At(p, e.t).selfClosed }

  /** Every released body decodes, and every released response had a length or chunks. */
  predicate Benign(p: Pool, es: seq<Event>)
    decreases |es|
  {
    es == [] || (!ReleasedBodyFails(p, es[0]) && !ReleasesClosed(p, es[0]) && Benign(Apply(p, es[0]), es[1..]))
  }

  /** While every released body decodes and none of them ended with the stream, no run ever leaves a closed
      connection idle or under a reader. */
  lemma {:induction false} RunAlive(p: Pool, es: seq<Event>)
    requires Owned(p) && Alive(p) && Shut(p) && GivenUp(p) && Benign(p, es)
    ensures Alive(Run(p, es))
    decreases |es|
  {
    hide Owned, Alive, Shut, Apply, GivenUp, ClosesShared;
    if es != [] {
      StepKeepsOwned(p, es[0]);
      StepGivenUp(p, es[0]);
      StepShut(p, es[0]);
      if ClosesShared(p, es[0]) {
        UnreleasedIsNotShared(p, es[0]);
      }
      StepAlive(p, es[0]);
      RunAlive(Apply(p, es[0]), es[1..]);
    }
  }

  lemma UnreleasedIsNotShared(p: Pool, e: Event)
    requires GivenUp(p) && ClosesShared(p, e)
    ensures ReleasedBodyFails(p, e)
  {
    var c := At(p, e.t).conn;
    if !IsIdle(p, c) {
      var u :| u in p.calls && p.calls[u].pc == Replied(c, false);
      assert HeldBy(p, u, c);
    }
  }

  /** A run that leaves a closed connection in the idle bucket: the released body does not decode. */
  lemma DecodeFailureClosesIdle(key: Key)
    ensures var es := [Begin(0, key, false), Checkout(0), SendOk(0, false), Reusable(0), DecodeFails(0)];
            var p := Run(Empty(1, 1), es);
            IsIdle(p, 0) && 0 in p.conns && !p.conns[0].open
  {
    var p4 := UpToRelease(key, false);
    var p5 := Apply(p4, DecodeFails(0));
    RunFive(Empty(1, 1), Begin(0, key, false), Checkout(0), SendOk(0, false), Reusable(0), DecodeFails(0));
    assert 0 in p5.idle[key];
  }

  /** Another, in which every body decodes: the response carried neither a length nor chunks. */
  lemma StreamEndedReplyIsIdleClosed(key: Key)
    ensures var es := [Begin(0, key, false), Checkout(0), SendOk(0, true), Reusable(0), Decoded(0)];
            var p := Run(Empty(1, 1), es);
            IsIdle(p, 0) && 0 in p.conns && !p.conns[0].open
  {
    var p4 := UpToRelease(key, true);
    var p5 := Apply(p4, Decoded(0));
    RunFive(Empty(1, 1), Begin(0, key, false), Checkout(0), SendOk(0, true), Reusable(0), Decoded(0));
    assert 0 in p5.idle[key];
  }

  lemma UpToRelease(key: Key, selfCloses: bool) returns (p4: Pool)
    ensures p4 == Apply(Apply(Apply(Apply(Empty(1, 1), Begin(0, key, false)), Checkout(0)), SendOk(0, selfCloses)),
                        Reusable(0))
    ensures At(p4, 0) == Decoding(0, true) && p4.idle == map[key := [0]]
    ensures p4.conns == map[0 := Info(key, !selfCloses)]
  {
    var p1 := Apply(Empty(1, 1), Begin(0, key, false));
    var p2 := Apply(p1, Checkout(0));
    assert At(p2, 0) == First(0) && p2.conns == map[0 := Info(key, false)];
    var p3 := Apply(p2, SendOk(0, selfCloses));
    assert At(p3, 0) == Replied(0, selfCloses) && p3.idle == map[];
    assert Bucket(p3.idle, key) + [0] == [0];
    p4 := Apply(p3, Reusable(0));
  }

  lemma RunFive(p: Pool, a: Event, b: Event, c: Event, d: Event, e: Event)
    ensures Run(p, [a, b, c, d, e]) == Apply(Apply(Apply(Apply(Apply(p, a), b), c), d), e)
  {
    hide Apply;
    var q := Apply(Apply(p, a), b);
    assert [a, b, c, d, e][1..] == [b, c, d, e] && [b, c, d, e][1..] == [c, d, e];
    assert [c, d, e][1..] == [d, e] && [d, e][1..] == [e] && [e][1..] == [];
    assert Run(q, [c, d, e]) == Apply(Apply(Apply(q, c), d), e) by {
      assert Run(Apply(q, c), [d, e]) == Run(Apply(Apply(q, c), d), [e]);
    }
  }

  // ----- the pool object -----

  /** Where a caller is after one send; `again` says whether a failed one may be repeated. */
  function AfterSend(c: Conn, selfClosed: bool, r: Reply, again: bool): Pc {
    if r.Body? then Replied(c, selfClosed) else if r.NetworkError? && again then Second(c) else Finished
  }

  /** The fields of the pool and of the caller after a send. */
  lemma SentShape(p: Pool, t: nat, e: Event)
    requires t in p.calls && (p.calls[t].pc.First? || p.calls[t].pc.Second?) && p.calls[t].pc.conn in p.conns
    requires e.t == t && (e.SendOk? || e.SendFails?)
    ensures var q, call := Apply(p, e), p.calls[t];
            && q.idle == p.idle && q.maxPerHost == p.maxPerHost && q.maxHosts == p.maxHosts
            && (e.SendOk? ==> q.created == p.created)
            && (e.SendOk? ==>
                  q.calls == p.calls[t := call.(pc := Replied(call.pc.conn, e.selfCloses), sends := call.sends + 1)])
            && (e.SendFails? ==>
                  var again := call.pc.First? && e.network && !call.budgeted;
                  && q.created == (if again then p.created + 1 else p.created)
                  && q.calls == p.calls[t := call.(pc := if again then Second(p.created) else Finished,
                                                   sends := call.sends + 1)])
  {
  }

  lemma HolderKnown(p: Pool, t: nat)
    requires Owned(p) && t in p.calls && p.calls[t].pc.Holds()
    ensures p.calls[t].pc.conn in p.conns
  {
    assert HeldBy(p, t, p.calls[t].pc.conn);
  }

  lemma RunOne(p: Pool, a: Event)
    ensures Run(p, [a]) == Apply(p, a)
  {
    hide Apply;
    assert [a][1..] == [];
  }

  lemma RunTwo(p: Pool, a: Event, b: Event)
    ensures Run(p, [a, b]) == Apply(Apply(p, a), b)
  {
    hide Apply;
    RunOne(p, a);
    RunSnoc(p, [a], b);
    assert [a] + [b] == [a, b];
  }

  lemma {:induction false} RunConcat(p: Pool, a: seq<Event>, b: seq<Event>)
    ensures Run(p, a + b) == Run(Run(p, a), b)
    decreases |a|
  {
    hide Apply;
    if a == [] {
      assert a + b == b;
    } else {
      assert (a + b)[1..] == a[1..] + b;
      RunConcat(Apply(p, a[0]), a[1..], b);
    }
  }

  lemma RunCons(p: Pool, e: Event, es: seq<Event>)
    ensures Run(p, [e] + es) == Run(Apply(p, e), es)
  {
    hide Apply;
    assert ([e] + es)[1..] == es;
  }

  /** When nobody is in a call, every open connection is idle; and no call has sent too often. */
  lemma Quiet(p: Pool, t: nat)
    requires Owned(p) && t in p.calls && forall u :: u in p.calls ==> p.calls[u].pc.Finished?
    ensures forall c :: c in p.conns && p.conns[c].open ==> IsIdle(p, c)
    ensures p.calls[t].sends <= if p.calls[t].budgeted then 1 else 2
  {
  }

  lemma {:induction false} RunSnoc(p: Pool, es: seq<Event>, e: Event)
    ensures Run(p, es + [e]) == Apply(Run(p, es), e)
    decreases |es|
  {
    hide Apply;
    if es == [] {
      assert [e][1..] == [];
    } else {
      assert (es + [e])[1..] == es[1..] + [e];
      RunSnoc(Apply(p, es[0]), es[1..], e);
    }
  }

  datatype Reply = Body | HttpStatus(status: int) | NetworkError | OtherError

  /** What the outside did in one step of a call: a connection object was made or taken, or not; a request got
      a response or failed; the response was read. */
  datatype Sign =
    | Prepared(failure: Option<Reply>)
    | Renewed(failure: Option<Reply>)
    | Sent(reply: Reply, selfCloses: bool)
    | Received(readFails: bool, status: int, keepAlive: bool, decodes: bool)

  /** What a call returns or raises for a response. */
  function ReplyTo(readFails: bool, status: int, decodes: bool): Reply {
    if readFails then NetworkError
    else if status >= 400 then HttpStatus(status)
    else if decodes then Body else OtherError
  }

  /** The sending half of a call: one request, and a second one only if the first failed at the connection and
      there is no budget; then always, unless no second connection can be made. */
  predicate Exchanged(budgeted: bool, w: seq<Sign>, r: Reply) {
    || (|w| == 1 && w[0] == Prepared(Some(r)))
    || (|w| == 2 && w[0] == Prepared(None) && w[1].Sent? && r == w[1].reply && (budgeted || !r.NetworkError?))
    || (|w| >= 3 && w[0] == Prepared(None) && w[1].Sent? && w[1].reply.NetworkError? && !budgeted
        && (|| (|w| == 3 && w[2] == Renewed(Some(r)))
            || (|w| == 4 && w[2] == Renewed(None) && w[3].Sent? && r == w[3].reply)))
  }

  /** A whole call: a response that started is read once, and the reply is the one for it. */
  predicate Answered(budgeted: bool, w: seq<Sign>, r: Reply) {
    w != [] && match w[|w| - 1]
    case Received(readFails, status, _, decodes) =>
      Exchanged(budgeted, w[..|w| - 1], Body) && r == ReplyTo(readFails, status, decodes)
    case _ => Exchanged(budgeted, w, r) && !r.Body?
  }

  lemma ExchangeEnds(budgeted: bool, w: seq<Sign>, r: Reply)
    requires Exchanged(budgeted, w, r) && !r.Body?
    ensures Answered(budgeted, w, r)
  {
  }

  /** The events of the machine that a sign means. */
  function Told(t: nat, s: Sign): seq<Event> {
    match s
    case Prepared(None) => [Checkout(t)]
    case Prepared(_) => [NeverSent(t)]
    case Renewed(None) => []
    case Renewed(_) => [NeverSent(t)]
    case Sent(r, selfCloses) => if r.Body? then [SendOk(t, selfCloses)] else [SendFails(t, r.NetworkError?)]
    case Received(readFails, status, keepAlive, decodes) =>
      if readFails then [BodyFails(t)]
      else if status >= 400 then [BadStatus(t)]
      else [if keepAlive then Reusable(t) else NotReusable(t), if decodes then Decoded(t) else DecodeFails(t)]
  }

  function EventsOf(t: nat, w: seq<Sign>): seq<Event> {
    if w == [] then [] else EventsOf(t, w[..|w| - 1]) + Told(t, w[|w| - 1])
  }

  lemma TellOn(t: nat, w: seq<Sign>, s: Sign)
    ensures EventsOf(t, w + [s]) == EventsOf(t, w) + Told(t, s)
  {
    assert (w + [s])[..|w|] == w;
  }

  lemma TellPair(t: nat, a: Sign, b: Sign)
    ensures EventsOf(t, [a, b]) == Told(t, a) + Told(t, b)
  {
    hide Told;
    TellOne(t, a);
    TellOn(t, [a], b);
    assert [a] + [b] == [a, b];
  }

  lemma TellTaken(t: nat)
    ensures Told(t, Prepared(None)) == [Checkout(t)]
  {
  }

  lemma TellSent(t: nat, r: Reply, selfCloses: bool)
    ensures Told(t, Sent(r, selfCloses))
         == [if r.Body? then SendOk(t, selfCloses) else SendFails(t, r.NetworkError?)]
  {
  }

  lemma {:induction false} TellMore(t: nat, w: seq<Sign>, more: seq<Sign>)
    ensures EventsOf(t, w + more) == EventsOf(t, w) + EventsOf(t, more)
    decreases |more|
  {
    hide Told;
    if more == [] {
      assert w + more == w;
    } else {
      assert (w + more)[..|w + more| - 1] == w + more[..|more| - 1];
      TellMore(t, w, more[..|more| - 1]);
    }
  }

  lemma TellOne(t: nat, s: Sign)
    ensures EventsOf(t, [s]) == Told(t, s)
  {
    TellOn(t, [], s);
    assert [] + [s] == [s];
  }

  /** `_ConnectionPool` and its one caller at a time; what the network does is arbitrary. `pool` and `calls`
      are bookkeeping of the model: the machine above, which every statement of the code moves by one event. */
  class HttpPool {
    const maxPerHost: nat
    const maxHosts: nat
    var idle: Idle
    var created: nat
    /** How often `conn.request` was started. */
    var sends: nat
    var pool: Pool
    var calls: nat
    /** All that the outside did, in order. */
    ghost var wire: seq<Sign>

    /** The fields are those of the machine, and the machine is in a sound state. */
    ghost predicate Linked()
      reads this
    {
      && Owned(pool) && pool.idle == idle && pool.created == created
      && pool.maxPerHost == maxPerHost && pool.maxHosts == maxHosts
    }

    /** Between calls: nobody holds anything. */
    ghost predicate Valid()
      reads this
    {
      Linked() && (forall t :: t in pool.calls ==> t < calls && pool.calls[t].pc.Finished?)
    }

    /** Caller `t` is in its call, at `pc`, with `n` sends so far. */
    ghost predicate In(t: nat, key: Key, budgeted: bool, pc: Pc, n: int)
      reads this
    {
      && Linked() && t < calls
      && (forall u :: u in pool.calls ==> u < calls && (u == t || pool.calls[u].pc.Finished?))
      && t in pool.calls && n >= 0 && pool.calls[t] == Call(key, budgeted, pc, n)
    }

    constructor (maxPerHost: nat, maxHosts: nat)
      ensures Valid() && idle == map[] && created == 0 && sends == 0
      ensures this.maxPerHost == maxPerHost && this.maxHosts == maxHosts
    {
      this.maxPerHost, this.maxHosts := maxPerHost, maxHosts;
      idle, created, sends, pool, calls := map[], 0, 0, Empty(maxPerHost, maxHosts), 0;
      wire := [];
    }

    /** `_checkout` */
    method CheckoutConn(t: nat, key: Key, budgeted: bool) returns (c: Conn)
      requires In(t, key, budgeted, Enter, 0)
      modifies this`idle, this`created, this`pool
      ensures In(t, key, budgeted, First(c), 0) && pool == Apply(old(pool), Checkout(t))
      ensures if Bucket(old(idle), key) != [] then
                Bucket(idle, key) + [c] == Bucket(old(idle), key) && created == old(created)
              else idle == old(idle) && c == old(created) && created == old(created) + 1
      ensures idle.Keys == old(idle).Keys && forall k :: k in old(idle) && k != key ==> idle[k] == old(idle)[k]
    {
      hide Owned;
      TakeExact(idle, key);
      match Take(idle, key) {
        case Some(p) => idle, c := p.0, p.1;
        case None =>
          c := created;
          created := created + 1;
      }
      StepKeepsOwned(pool, Checkout(t));
      pool := Apply(pool, Checkout(t));
    }

    /** `_release` */
    method ReleaseConn(t: nat, key: Key, budgeted: bool, c: Conn, selfClosed: bool, ghost n: int) returns (kept: bool)
      requires In(t, key, budgeted, Replied(c, selfClosed), n)
      modifies this`idle, this`pool
      ensures In(t, key, budgeted, Decoding(c, kept), n) && pool == Apply(old(pool), Reusable(t))
      ensures kept <==> |Bucket(old(idle), key)| < maxPerHost && (key in old(idle) || |old(idle)| < maxHosts)
      ensures Bucket(idle, key) == Bucket(old(idle), key) + if kept then [c] else []
      ensures forall k :: k != key ==> (k in idle <==> k in old(idle)) && Bucket(idle, k) == Bucket(old(idle), k)
    {
      hide Owned;
      GiveExact(idle, key, c, maxPerHost, maxHosts);
      StepKeepsOwned(pool, Reusable(t));
      pool := Apply(pool, Reusable(t));
      if key !in idle && |idle| >= maxHosts {
        return false;
      }
      idle := idle[key := Bucket(idle, key)];
      if |idle[key]| >= maxPerHost {
        return false;
      }
      idle := idle[key := idle[key] + [c]];
      return true;
    }

    /** `conn.request` and `getresponse`; a reply may have closed the connection itself. */
    method Send() returns (r: Reply, selfCloses: bool)
      modifies this`sends, this`wire
      ensures sends == old(sends) + 1 && wire == old(wire) + [Sent(r, selfCloses)]
      ensures r.Body? || r.NetworkError? || r.OtherError?
    {
      sends := sends + 1;
      var network, other := *, *;
      selfCloses := *;
      r := if network then NetworkError else if other then OtherError else Body;
      wire := wire + [Sent(r, selfCloses)];
    }

    /** The URL is split and a connection taken or made, the second time a new one only; or that fails. */
    method Open(again: bool) returns (failure: Option<Reply>)
      modifies this`wire
      ensures wire == old(wire) + [if again then Renewed(failure) else Prepared(failure)]
      ensures failure in {None, Some(NetworkError), Some(OtherError)}
    {
      var network, fails := *, *;
      failure := if fails then Some(if network then NetworkError else OtherError) else None;
      wire := wire + [if again then Renewed(failure) else Prepared(failure)];
    }

    /** `resp.status`, `resp.read`, whether the connection can be kept, and whether the body decodes. */
    method Read() returns (readFails: bool, status: int, keepAlive: bool, decodes: bool)
      modifies this`wire
      ensures wire == old(wire) + [Received(readFails, status, keepAlive, decodes)]
    {
      readFails, status, keepAlive, decodes := *, *, *, *;
      wire := wire + [Received(readFails, status, keepAlive, decodes)];
    }

    /** One request on the connection held, the first or the second. After a failure of the first at the
        connection a fresh one is made here, unless there is a budget. */
    method Transmit(t: nat, key: Key, budgeted: bool, held: Conn, second: bool)
      returns (c: Conn, selfClosed: bool, r: Reply, ghost e: Event)
      requires In(t, key, budgeted, if second then Second(held) else First(held), if second then 1 else 0)
      modifies this`created, this`sends, this`pool, this`wire
      ensures pool == Apply(old(pool), e) && e.t == t && sends == old(sends) + 1
      ensures old(wire) < wire && |wire| == |old(wire)| + 1
      ensures wire[|wire| - 1].Sent? && wire[|wire| - 1].reply == r && Told(t, wire[|wire| - 1]) == [e]
      ensures In(t, key, budgeted, AfterSend(c, selfClosed, r, !budgeted && !second), if second then 2 else 1)
      ensures r.NetworkError? || r.OtherError? || r.Body?
    {
      hide Owned, Apply, Told;
      r, selfClosed := Send();
      TellSent(t, r, selfClosed);
      c, e := Settle(t, key, budgeted, held, second, r, selfClosed);
    }

    /** The connection after a request on it: kept, or closed and the caller given a new one, or closed for good. */
    method Settle(t: nat, key: Key, budgeted: bool, held: Conn, second: bool, r: Reply, selfClosed: bool)
      returns (c: Conn, ghost e: Event)
      requires In(t, key, budgeted, if second then Second(held) else First(held), if second then 1 else 0)
      requires r.NetworkError? || r.OtherError? || r.Body?
      modifies this`created, this`pool
      ensures pool == Apply(old(pool), e)
      ensures e == if r.Body? then SendOk(t, selfClosed) else SendFails(t, r.NetworkError?)
      ensures In(t, key, budgeted, AfterSend(c, selfClosed, r, !budgeted && !second), if second then 2 else 1)
    {
      HolderKnown(pool, t);
      hide Owned, Apply;
      c := held;
      if r.NetworkError? && !budgeted && !second {
        c := created;
        created := created + 1;
      }
      var event := if r.Body? then SendOk(t, selfClosed) else SendFails(t, r.NetworkError?);
      StepKeepsOwned(pool, event);
      SentShape(pool, t, event);
      pool := Apply(pool, event);
      e := event;
    }

    /** No request is sent: the URL is refused, or no connection object can be made. */
    method Refuse(t: nat, key: Key, budgeted: bool, ghost pc: Pc, ghost n: nat)
      requires In(t, key, budgeted, pc, n) && (pc.Enter? || pc.Second?)
      modifies this`pool
      ensures pool == Apply(old(pool), NeverSent(t)) && In(t, key, budgeted, Finished, n)
    {
      hide Owned;
      StepKeepsOwned(pool, NeverSent(t));
      pool := Apply(pool, NeverSent(t));
    }

    /** The first request, on a connection parked or new. */
    method Request(t: nat, key: Key, budgeted: bool)
      returns (c: Conn, selfClosed: bool, r: Reply, ghost es: seq<Event>, ghost signs: seq<Sign>)
      requires In(t, key, budgeted, Enter, 0) && wire != [] && wire[|wire| - 1] == Prepared(None)
      modifies this`idle, this`created, this`sends, this`pool, this`wire
      ensures |signs| == 2 && wire == old(wire) + signs[1..] && signs[0] == Prepared(None)
      ensures signs[1].Sent? && signs[1].reply == r && EventsOf(t, signs) == es
      ensures pool == Run(old(pool), es) && |es| == 2 && es[0].t == es[1].t == t && sends == old(sends) + 1
      ensures In(t, key, budgeted, AfterSend(c, selfClosed, r, !budgeted), 1)
      ensures r.NetworkError? || r.OtherError? || r.Body?
      ensures forall k :: k in old(idle) && k != key ==> k in idle && idle[k] == old(idle[k])
    {
      hide Owned, Apply, Run, Told, EventsOf, Bucket, In;
      c := CheckoutConn(t, key, budgeted);
      ghost var e;
      c, selfClosed, r, e := Transmit(t, key, budgeted, c, false);
      signs := [Prepared(None), wire[|wire| - 1]];
      TellPair(t, Prepared(None), wire[|wire| - 1]);
      TellTaken(t);
      es := [Checkout(t), e];
      RunTwo(old(pool), Checkout(t), e);
    }

    /** The one resend, on a fresh connection. */
    method Resend(t: nat, key: Key, held: Conn)
      returns (c: Conn, selfClosed: bool, r: Reply, ghost e: Event, ghost signs: seq<Sign>)
      requires In(t, key, false, Second(held), 1)
      modifies this`created, this`sends, this`pool, this`wire
      ensures wire == old(wire) + signs && EventsOf(t, signs) == [e] && e.t == t && pool == Apply(old(pool), e)
      ensures || signs == [Renewed(Some(r))]
              || (|signs| == 2 && signs[0] == Renewed(None) && signs[1].Sent? && signs[1].reply == r)
      ensures In(t, key, false, if r.Body? then Replied(c, selfClosed) else Finished, 1 + sends - old(sends))
      ensures 0 <= sends - old(sends) <= 1 && (r.NetworkError? || r.OtherError? || r.Body?)
    {
      hide Owned, Apply;
      c, selfClosed := held, false;
      var failure := Open(true);
      TellOne(t, Renewed(failure));
      if failure.Some? {
        Refuse(t, key, false, Second(c), 1);
        r, e, signs := failure.value, NeverSent(t), [Renewed(failure)];
        return;
      }
      c, selfClosed, r, e := Transmit(t, key, false, c, true);
      TellPair(t, Renewed(failure), wire[|wire| - 1]);
      signs := [Renewed(failure), wire[|wire| - 1]];
    }

    /** The sending half of `request_json`: checkout, request, and the one resend on a fresh connection.
        `es` are the events of the machine, `first` what the first request came to, if it was sent. */
    method Exchange(t: nat, key: Key, budgeted: bool)
      returns (c: Conn, selfClosed: bool, r: Reply, ghost es: seq<Event>, ghost first: Option<Reply>)
      requires In(t, key, budgeted, Enter, 0)
      modifies this`idle, this`created, this`sends, this`pool, this`wire
      ensures old(wire) <= wire && Exchanged(budgeted, wire[|old(wire)|..], r)
      ensures es == EventsOf(t, wire[|old(wire)|..])
      ensures pool == Run(old(pool), es) && forall k :: 0 <= k < |es| ==> es[k].t == t
      ensures In(t, key, budgeted, if r.Body? then Replied(c, selfClosed) else Finished, sends - old(sends))
      ensures first.None? <==> sends == old(sends)
      ensures first.Some? && (budgeted || !first.value.NetworkError?) ==> sends == old(sends) + 1 && r == first.value
      ensures first == Some(NetworkError) && !budgeted ==> sends - old(sends) <= 2
      ensures r.NetworkError? || r.OtherError? || r.Body?
      ensures forall k :: k in old(idle) && k != key ==> k in idle && idle[k] == old(idle[k])
    {
      hide Owned, Apply, Run, EventsOf;
      c, selfClosed, first := 0, false, None;
      var failure := Open(false);
      ghost var signs := [Prepared(failure)];
      TellOne(t, Prepared(failure));
      if failure.Some? {
        Refuse(t, key, budgeted, Enter, 0);
        r, es := failure.value, [NeverSent(t)];
        RunOne(old(pool), NeverSent(t));
        return;
      }
      c, selfClosed, r, es, signs := Request(t, key, budgeted);
      first := Some(r);
      if r.NetworkError? && !budgeted {
        ghost var e, more;
        c, selfClosed, r, e, more := Resend(t, key, c);
        TellMore(t, signs, more);
        signs := signs + more;
        RunSnoc(old(pool), es, e);
        es := es + [e];
      }
      assert wire[|old(wire)|..] == signs;
    }

    /** The end of a call, for the events that only close or forget the connection. */
    method Drop(t: nat, key: Key, budgeted: bool, ghost pc: Pc, ghost n: int, e: Event)
      requires In(t, key, budgeted, pc, n) && e.t == t
      requires (pc.Replied? && (e.BodyFails? || e.BadStatus?)) || (pc.Decoding? && (e.Decoded? || e.DecodeFails?))
      modifies this`pool
      ensures In(t, key, budgeted, Finished, n) && pool == Apply(old(pool), e)
    {
      hide Owned;
      StepKeepsOwned(pool, e);
      pool := Apply(pool, e);
    }

    /** A response that is not reusable closes its connection. */
    method CloseAfter(t: nat, key: Key, budgeted: bool, c: Conn, selfClosed: bool, ghost n: int)
      requires In(t, key, budgeted, Replied(c, selfClosed), n)
      modifies this`pool
      ensures In(t, key, budgeted, Decoding(c, false), n) && pool == Apply(old(pool), NotReusable(t))
    {
      hide Owned;
      StepKeepsOwned(pool, NotReusable(t));
      pool := Apply(pool, NotReusable(t));
    }

    /** The receiving half: read, check the status, give back or close, decode. */
    method Receive(t: nat, key: Key, budgeted: bool, c: Conn, selfClosed: bool, ghost n: int)
      returns (r: Reply, ghost es: seq<Event>)
      requires In(t, key, budgeted, Replied(c, selfClosed), n)
      modifies this`idle, this`pool, this`wire
      ensures |wire| == |old(wire)| + 1 && old(wire) < wire && wire[|wire| - 1].Received?
      ensures var s := wire[|wire| - 1]; r == ReplyTo(s.readFails, s.status, s.decodes) && es == Told(t, s)
      ensures pool == Run(old(pool), es) && forall k :: 0 <= k < |es| ==> es[k].t == t
      ensures In(t, key, budgeted, Finished, n)
      ensures r.HttpStatus? ==> r.status >= 400
      ensures forall k :: k in old(idle) && k != key ==> k in idle && idle[k] == old(idle[k])
    {
      hide Owned, Apply, Run;
      var readFails, status, keepAlive, decodes := Read();
      ghost var first;
      if readFails || status >= 400 {
        first := if readFails then BodyFails(t) else BadStatus(t);
        Drop(t, key, budgeted, Replied(c, selfClosed), n, if readFails then BodyFails(t) else BadStatus(t));
        RunOne(old(pool), first);
        return if readFails then NetworkError else HttpStatus(status), [first];
      }
      var released := false;
      if keepAlive {
        first := Reusable(t);
        released := ReleaseConn(t, key, budgeted, c, selfClosed, n);
      } else {
        first := NotReusable(t);
        CloseAfter(t, key, budgeted, c, selfClosed, n);
      }
      var last := if decodes then Decoded(t) else DecodeFails(t);
      Drop(t, key, budgeted, Decoding(c, released), n, last);
      RunTwo(old(pool), first, last);
      return if decodes then Body else OtherError, [first, last];
    }

    /** `request_json`: one call of the machine, from its own `Begin` to its end. No request at all if the URL
        is refused or no connection can be made, else one with a budget and at most two without; whatever
        happens, every open connection is back in a bucket and other buckets are untouched. */
    method RequestJson(key: Key, budgeted: bool) returns (r: Reply, ghost es: seq<Event>, ghost first: Option<Reply>)
      requires Valid()
      modifies this
      ensures Valid() && calls == old(calls) + 1
      ensures old(wire) <= wire && Answered(budgeted, wire[|old(wire)|..], r)
      ensures es == [Begin(old(calls), key, budgeted)] + EventsOf(old(calls), wire[|old(wire)|..])
      ensures pool == Run(old(pool), es) && forall k :: 0 <= k < |es| ==> es[k].t == old(calls)
      ensures sends >= old(sends) && old(calls) in pool.calls
      ensures pool.calls[old(calls)] == Call(key, budgeted, Finished, sends - old(sends))
      ensures sends - old(sends) <= if budgeted then 1 else 2
      ensures if first.None? then sends == old(sends) else sends > old(sends)
      ensures sends - old(sends) == 2 ==> first == Some(NetworkError)
      ensures forall c :: c in pool.conns && pool.conns[c].open ==> IsIdle(pool, c)
      ensures forall k :: k in old(idle) && k != key ==> k in idle && idle[k] == old(idle[k])
      ensures r.HttpStatus? ==> r.status >= 400
    {
      hide Owned, Apply, Run, EventsOf, Exchanged, Told;
      ghost var n := sends;
      var t := Enlist(key, budgeted);
      var c, selfClosed, sent;
      ghost var some, more := [], [];
      c, selfClosed, sent, some, first := Exchange(t, key, budgeted);
      ghost var signs := wire[|old(wire)|..];
      r := sent;
      if sent.Body? {
        r, more := Receive(t, key, budgeted, c, selfClosed, sends - n);
        assert wire[|old(wire)|..] == signs + [wire[|wire| - 1]];
        assert (signs + [wire[|wire| - 1]])[..|signs|] == signs;
        TellOn(t, signs, wire[|wire| - 1]);
        RunConcat(Apply(old(pool), Begin(t, key, budgeted)), some, more);
      } else {
        assert some + more == some;
        ExchangeEnds(budgeted, signs, r);
      }
      es := [Begin(t, key, budgeted)] + (some + more);
      RunCons(old(pool), Begin(t, key, budgeted), some + more);
      Quiet(pool, t);
    }

    /** A new call. */
    method Enlist(key: Key, budgeted: bool) returns (t: nat)
      requires Valid()
      modifies this`pool, this`calls
      ensures t == old(calls) && calls == t + 1
      ensures In(t, key, budgeted, Enter, 0) && pool == Apply(old(pool), Begin(t, key, budgeted))
    {
      hide Owned;
      t := calls;
      calls := calls + 1;
      StepKeepsOwned(pool, Begin(t, key, budgeted));
      pool := Apply(pool, Begin(t, key, budgeted));
    }
  }
}
