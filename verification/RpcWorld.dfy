/** The outside world of the RPC client: the same clock, a cookie file, and an HTTP peer that may
    answer anything, in chunks of any size, after any time. */
module RpcWorld {
  import opened Runs
  import opened Json

  type Bytes = seq<bv8>

  /** What opening a request can give. */
  datatype OpenReply =
    | Opened
    | HttpError(status: int)
    | Redirected
    | OpenTimedOut
    | OpenFailed
    | OpenRaised  // an exception the client does not catch

  /** What reading from the response can give. */
  datatype ReadReply = Chunk(bytes: Bytes) | ReadTimedOut | ReadFailed | ReadRaised

  datatype Tick = Tick(drift: Span, lasts: Span, cookie: bool, open: OpenReply, read: ReadReply)

  type Script = nat -> Tick

  datatype Event =
    | Request(rpc: string, params: seq<Value>, budget: real, began: real, ended: real)
    | Reading(reply: ReadReply, budget: real, began: real, ended: real)

  function Read(env: Script, m: Moment): (r: Moment)
    ensures r.now >= m.now && r.step == m.step + 1
  {
    After(m, env(m.step).drift)
  }

  /** Time only moves forward, and every request and every read began before the deadline with a
      timeout of exactly the time then left. */
  predicate InTime(m: Moment, deadline: real, at: Moment, events: seq<Event>) {
    m.now <= at.now && m.step <= at.step &&
    forall e :: e in events ==>
      m.now <= e.began <= e.ended <= at.now && 0.0 < e.budget == deadline - e.began
  }

  lemma Idle(env: Script, m: Moment, deadline: real)
    ensures InTime(m, deadline, m, []) && InTime(m, deadline, Read(env, m), [])
  {
  }

  lemma Sequel(m: Moment, deadline: real, mid: Moment, a: seq<Event>, at: Moment, b: seq<Event>)
    requires InTime(m, deadline, mid, a) && InTime(mid, deadline, at, b)
    ensures InTime(m, deadline, at, a + b)
  {
    assert forall e :: e in a + b <==> e in a || e in b;
  }

  lemma SinceEarlier(m: Moment, mid: Moment, deadline: real, at: Moment, events: seq<Event>)
    requires m.now <= mid.now && m.step <= mid.step && InTime(mid, deadline, at, events)
    ensures InTime(m, deadline, at, events)
  {
  }

  /** Local work takes no time. */
  ghost predicate Instant(env: Script) {
    forall n: nat :: env(n).drift == 0.0
  }

  /** Opens and reads end within the timeout they were given. */
  predicate Honoured(es: seq<Event>) {
    forall e :: e in es ==> e.ended - e.began <= e.budget
  }

  lemma HonouredParts(a: seq<Event>, b: seq<Event>)
    ensures Honoured(a + b) <==> Honoured(a) && Honoured(b)
  {
    assert forall e :: e in a + b <==> e in a || e in b;
  }
}
