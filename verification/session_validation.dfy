/**
 Reconciliation of network sessions with the controller, and the bounded
 wait for an API session that has not arrived yet.

 Time is in nanoseconds (Go's `time.Duration`). The clock, the random
 jitter, the channel's send results and the session lookups the wait sees
 are parameters.
 */
module SessionValidation {
  import opened Primitives
  import opened RouterState

  const Millisecond: int := 1_000_000
  const Second: int := 1_000_000_000

  /** All chunks joined in order. */
  function Flatten(chunks: seq<seq<string>>): (r: seq<string>)
  {
    if chunks == [] then [] else chunks[0] + Flatten(chunks[1..])
  }

  /**
   The chunks of `ValidateSessions` for a positive chunk size: the tokens in
   order, `size` at a time, the last chunk holding the rest.
   */
  function Chunks(tokens: seq<string>, size: U32): (r: seq<seq<string>>)
    requires size > 0
    ensures Flatten(r) == tokens
    ensures forall i :: 0 <= i < |r| ==> 0 < |r[i]| <= size
    ensures forall i :: 0 <= i < |r| - 1 ==> |r[i]| == size
    decreases |tokens|
  {
    if |tokens| == 0 then []
    else if |tokens| > size then
      var rest := Chunks(tokens[size..], size);
      var r := [tokens[..size]] + rest;
      assert r[1..] == rest;
      assert tokens == tokens[..size] + tokens[size..];
      r
    else
      assert [tokens][1..] == [];
      [tokens]
  }

  /** A step the validation pass takes on the outside world. */
  datatype Step = Send(chunk: seq<string>) | Sleep(duration: int)

  /** How a validation pass ends. */
  datatype PassOutcome =
    | Completed(steps: seq<Step>)   // every chunk was sent
    | Aborted(steps: seq<Step>)     // a send failed; the rest of the pass is dropped
    | SpinsForever                  // chunk size 0 and no send fails: empty chunks are sent without end

  /**
   The pause between two chunks as written: `minInterval` is added to the
   pause, which already starts at `minInterval`, so with jitter the pause
   lies in `[2 * min, min + max)` rather than in `[min, max)`.
   */
  function JitterInterval(minInterval: int, maxInterval: int, delta: int): (d: int)
    requires minInterval < maxInterval ==> 0 <= delta < maxInterval - minInterval
    ensures minInterval >= maxInterval ==> d == minInterval
    ensures minInterval < maxInterval ==> 2 * minInterval <= d < minInterval + maxInterval
  {
    var interval := minInterval;
    if minInterval < maxInterval then interval + minInterval + delta else interval
  }

  /** The pause with the evidently intended jitter: `min + delta`, in `[min, max)`. */
  function JitterIntervalFixed(minInterval: int, maxInterval: int, delta: int): (d: int)
    requires minInterval < maxInterval ==> 0 <= delta < maxInterval - minInterval
    ensures minInterval >= maxInterval ==> d == minInterval
    ensures minInterval < maxInterval ==> minInterval <= d < maxInterval
  {
    if minInterval < maxInterval then minInterval + delta else minInterval
  }

  /** With a 1 s minimum and a 2 s maximum, the pause as written is at least 2 s: never inside the window. */
  lemma JitterExceedsWindow(delta: int)
    requires 0 <= delta < Second
    ensures JitterInterval(Second, 2 * Second, delta) >= 2 * Second
    ensures Second <= JitterIntervalFixed(Second, 2 * Second, delta) < 2 * Second
  {
  }

  /** The pause after chunk `k`: as written, or corrected when `fixed`. */
  function PauseAt(k: nat, deltas: nat -> int, minInterval: int, maxInterval: int, fixed: bool): (d: int)
    requires minInterval < maxInterval ==> forall i :: 0 <= deltas(i) < maxInterval - minInterval
    ensures fixed ==> d == JitterIntervalFixed(minInterval, maxInterval, deltas(k))
    ensures !fixed ==> d == JitterInterval(minInterval, maxInterval, deltas(k))
  {
    if fixed then JitterIntervalFixed(minInterval, maxInterval, deltas(k))
    else JitterInterval(minInterval, maxInterval, deltas(k))
  }

  /**
   The pass from chunk `k` on: send the chunk; stop if the send fails;
   otherwise pause (jitter `deltas(k)`) if another chunk follows.
   `fixed` selects the corrected pause.
   */
  function RunPass(chunks: seq<seq<string>>, k: nat, sendOk: nat -> bool, deltas: nat -> int,
                   minInterval: int, maxInterval: int, fixed: bool): (r: PassOutcome)
    requires k <= |chunks|
    requires minInterval < maxInterval ==> forall i :: 0 <= deltas(i) < maxInterval - minInterval
    ensures !r.SpinsForever?
    ensures r.Completed? <==> forall i :: k <= i < |chunks| ==> sendOk(i)
    decreases |chunks| - k
  {
    if k == |chunks| then Completed([])
    else if !sendOk(k) then Aborted([Send(chunks[k])])
    else if k + 1 == |chunks| then Completed([Send(chunks[k])])
    else
      var pause := PauseAt(k, deltas, minInterval, maxInterval, fixed);
      var prefix := [Send(chunks[k]), Sleep(pause)];
      match RunPass(chunks, k + 1, sendOk, deltas, minInterval, maxInterval, fixed)
      case Completed(steps) => Completed(prefix + steps)
      case Aborted(steps) => Aborted(prefix + steps)
  }

  /** The chunks a list of steps sends, in order. */
  function Sent(steps: seq<Step>): (r: seq<seq<string>>)
    ensures |r| <= |steps|
  {
    if steps == [] then []
    else if steps[0].Send? then [steps[0].chunk] + Sent(steps[1..])
    else Sent(steps[1..])
  }

  /** The pauses in a list of steps. */
  function Pauses(steps: seq<Step>): (r: seq<int>)
  {
    if steps == [] then []
    else if steps[0].Sleep? then [steps[0].duration] + Pauses(steps[1..])
    else Pauses(steps[1..])
  }

  lemma {:induction false} SentAppend(a: seq<Step>, b: seq<Step>)
    ensures Sent(a + b) == Sent(a) + Sent(b)
    ensures Pauses(a + b) == Pauses(a) + Pauses(b)
  {
    if a == [] {
      assert a + b == b;
    } else {
      assert (a + b)[0] == a[0] && (a + b)[1..] == a[1..] + b;
      SentAppend(a[1..], b);
      assert Sent(a + b) == (if a[0].Send? then [a[0].chunk] else []) + Sent(a[1..] + b);
      assert Pauses(a + b) == (if a[0].Sleep? then [a[0].duration] else []) + Pauses(a[1..] + b);
    }
  }

  /**
   A completed pass from chunk `k` sends exactly the remaining chunks, in
   order, with one pause between each two and none after the last; an
   aborted pass sends a prefix of them, ending with the send that failed.
   */
  lemma {:induction false} RunPassSends(chunks: seq<seq<string>>, k: nat, sendOk: nat -> bool, deltas: nat -> int,
                                        minInterval: int, maxInterval: int, fixed: bool)
    requires k <= |chunks|
    requires minInterval < maxInterval ==> forall i :: 0 <= deltas(i) < maxInterval - minInterval
    ensures var r := RunPass(chunks, k, sendOk, deltas, minInterval, maxInterval, fixed);
      && (r.Completed? ==> Sent(r.steps) == chunks[k..] && |Pauses(r.steps)| == (if k == |chunks| then 0 else |chunks| - k - 1))
      && (r.Aborted? ==> exists j :: k <= j < |chunks| && !sendOk(j) && Sent(r.steps) == chunks[k..j + 1] && |Pauses(r.steps)| == j - k)
    decreases |chunks| - k
  {
    if k < |chunks| && sendOk(k) && k + 1 < |chunks| {
      var pause := PauseAt(k, deltas, minInterval, maxInterval, fixed);
      var rest := RunPass(chunks, k + 1, sendOk, deltas, minInterval, maxInterval, fixed);
      RunPassSends(chunks, k + 1, sendOk, deltas, minInterval, maxInterval, fixed);
      SendThenSleep(chunks[k], pause, rest.steps);
      assert chunks[k..] == [chunks[k]] + chunks[k + 1..];
      if rest.Aborted? {
        var j :| k + 1 <= j < |chunks| && !sendOk(j) && Sent(rest.steps) == chunks[k + 1..j + 1] && |Pauses(rest.steps)| == j - k - 1;
        var steps := [Send(chunks[k]), Sleep(pause)] + rest.steps;
        AbortedAfterSend(chunks, k, j, pause, rest.steps);
        assert k <= j < |chunks| && !sendOk(j) && Sent(steps) == chunks[k..j + 1] && |Pauses(steps)| == j - k;
      }
    } else if k < |chunks| {
      assert chunks[k..k + 1] == [chunks[k]];
    }
  }

  /** A pass that aborted at send `j` after chunk `k + 1`, behind the send of chunk `k` and a pause, sent chunks `k` to `j`. */
  lemma AbortedAfterSend(chunks: seq<seq<string>>, k: nat, j: nat, pause: int, steps: seq<Step>)
    requires k + 1 <= j < |chunks| && Sent(steps) == chunks[k + 1..j + 1] && |Pauses(steps)| == j - k - 1
    ensures Sent([Send(chunks[k]), Sleep(pause)] + steps) == chunks[k..j + 1]
    ensures |Pauses([Send(chunks[k]), Sleep(pause)] + steps)| == j - k
  {
    SendThenSleep(chunks[k], pause, steps);
    assert chunks[k..j + 1] == [chunks[k]] + chunks[k + 1..j + 1];
  }

  /** A send followed by a pause, in front of more steps, adds that chunk and that pause in front. */
  lemma SendThenSleep(chunk: seq<string>, pause: int, steps: seq<Step>)
    ensures Sent([Send(chunk), Sleep(pause)] + steps) == [chunk] + Sent(steps)
    ensures Pauses([Send(chunk), Sleep(pause)] + steps) == [pause] + Pauses(steps)
  {
    var prefix := [Send(chunk), Sleep(pause)];
    SentAppend(prefix, steps);
    assert Sent(prefix) == [chunk] && Pauses(prefix) == [pause] by {
      assert prefix[1..] == [Sleep(pause)] && prefix[1..][1..] == [];
    }
  }

  /**
   Whether send `i` of a pass succeeds on a channel whose first failing send
   is `failsAt` (`None` when every send succeeds). A pass stops at its first
   failed send, so this is all it can observe of the channel.
   */
  function SendSucceeds(failsAt: Option<nat>, i: nat): (ok: bool)
    ensures ok <==> failsAt.None? || i < failsAt.value
  {
    match failsAt
    case None => true
    case Some(j) => i < j
  }

  /**
   Rounds `k` to `j - 1` of a pass with chunk size 0: each sends the empty
   chunk (`sessionTokens[:0]`, the tokens staying where they are) and then
   pauses, since tokens remain.
   */
  function EmptyRounds(k: nat, j: nat, deltas: nat -> int, minInterval: int, maxInterval: int, fixed: bool): (steps: seq<Step>)
    requires minInterval < maxInterval ==> forall i :: 0 <= deltas(i) < maxInterval - minInterval
    decreases j - k
  {
    if j <= k then []
    else [Send([]), Sleep(PauseAt(k, deltas, minInterval, maxInterval, fixed))] + EmptyRounds(k + 1, j, deltas, minInterval, maxInterval, fixed)
  }

  /** Rounds `k` to `j - 1` send `j - k` empty chunks and make `j - k` pauses, each of its round's jitter. */
  lemma {:induction false} EmptyRoundsSend(k: nat, j: nat, deltas: nat -> int, minInterval: int, maxInterval: int, fixed: bool)
    requires minInterval < maxInterval ==> forall i :: 0 <= deltas(i) < maxInterval - minInterval
    ensures var steps := EmptyRounds(k, j, deltas, minInterval, maxInterval, fixed);
      && Sent(steps) == seq(if j <= k then 0 else j - k, _ => [])
      && Pauses(steps) == seq(if j <= k then 0 else j - k, i requires 0 <= i => PauseAt(k + i, deltas, minInterval, maxInterval, fixed))
    decreases j - k
  {
    if k < j {
      var pause := PauseAt(k, deltas, minInterval, maxInterval, fixed);
      var rest := EmptyRounds(k + 1, j, deltas, minInterval, maxInterval, fixed);
      EmptyRoundsSend(k + 1, j, deltas, minInterval, maxInterval, fixed);
      SendThenSleep([], pause, rest);
    }
  }

  /**
   `ValidateSessions(ch, chunkSize, minInterval, maxInterval)` on the
   tracked tokens in the order `tokens` lists them, on a channel whose first
   failing send is `failsAt`. With a positive chunk size the tokens go out in
   chunks; with chunk size 0 every round sends an empty chunk and keeps all
   tokens, so the loop ends only at a failed send.
   */
  function ValidateSessions(tokens: seq<string>, chunkSize: U32, failsAt: Option<nat>, deltas: nat -> int,
                            minInterval: int, maxInterval: int, fixed: bool): (r: PassOutcome)
    requires minInterval < maxInterval ==> forall i :: 0 <= deltas(i) < maxInterval - minInterval
    ensures tokens == [] ==> r == Completed([])
    ensures r.SpinsForever? <==> tokens != [] && chunkSize == 0 && failsAt.None?
    ensures r.Completed? ==> Flatten(Sent(r.steps)) == tokens
    ensures chunkSize > 0 ==>
      (r.Completed? <==> failsAt.None? || failsAt.value >= |Chunks(tokens, chunkSize)|)
    ensures tokens != [] && chunkSize == 0 && failsAt.Some? ==>
      && r.Aborted?
      && Sent(r.steps) == seq(failsAt.value + 1, _ => [])
      && |Pauses(r.steps)| == failsAt.value
  {
    if tokens == [] then Completed([])
    else if chunkSize == 0 then
      match failsAt
      case None => SpinsForever
      case Some(j) =>
        var rounds := EmptyRounds(0, j, deltas, minInterval, maxInterval, fixed);
        EmptyRoundsSend(0, j, deltas, minInterval, maxInterval, fixed);
        SentAppend(rounds, [Send([])]);
        assert Sent([Send([])]) == [[]] && Pauses([Send([])]) == [] by {
          assert [Send([])][1..] == [];
        }
        var empties: seq<seq<string>> := seq(j, _ => []);
        assert empties + [[]] == seq(j + 1, _ => []);
        Aborted(rounds + [Send([])])
    else
      var chunks := Chunks(tokens, chunkSize);
      var sendOk := (i: nat) => SendSucceeds(failsAt, i);
      var r := RunPass(chunks, 0, sendOk, deltas, minInterval, maxInterval, fixed);
      RunPassSends(chunks, 0, sendOk, deltas, minInterval, maxInterval, fixed);
      assert chunks[0..] == chunks;
      assert failsAt.Some? && failsAt.value < |chunks| ==> !sendOk(failsAt.value);
      r
  }

  /** `sm.sessions.Keys()`: every tracked token once, in an unspecified order. */
  method SessionKeys(m: Manager) returns (keys: seq<string>)
    ensures forall t :: t in keys <==> t in m.sessions
    ensures forall i, j :: 0 <= i < j < |keys| ==> keys[i] != keys[j]
    ensures |keys| == |m.sessions|
  {
    keys := [];
    var todo := m.sessions.Keys;
    while todo != {}
      invariant todo <= m.sessions.Keys
      invariant forall t :: t in keys <==> t in m.sessions && t !in todo
      invariant forall i, j :: 0 <= i < j < |keys| ==> keys[i] != keys[j]
      invariant |keys| + |todo| == |m.sessions.Keys|
      decreases |todo|
    {
      var t :| t in todo;
      keys := keys + [t];
      todo := todo - {t};
    }
  }

  /**
   A validation pass over the manager's tracked network sessions: when it
   completes, every tracked token has been sent exactly once.
   */
  method ValidateTrackedSessions(m: Manager, chunkSize: U32, failsAt: Option<nat>, deltas: nat -> int,
                                 minInterval: int, maxInterval: int, fixed: bool) returns (r: PassOutcome)
    requires minInterval < maxInterval ==> forall i :: 0 <= deltas(i) < maxInterval - minInterval
    ensures r.SpinsForever? <==> |m.sessions| > 0 && chunkSize == 0 && failsAt.None?
    ensures r.Completed? ==> |Flatten(Sent(r.steps))| == |m.sessions|
    ensures r.Completed? ==> forall t :: t in Flatten(Sent(r.steps)) <==> t in m.sessions
  {
    var keys := SessionKeys(m);
    r := ValidateSessions(keys, chunkSize, failsAt, deltas, minInterval, maxInterval, fixed);
  }

  /** Every pause of a pass is the pause its interval function allows. */
  lemma {:induction false} PassPausesBounded(chunks: seq<seq<string>>, k: nat, sendOk: nat -> bool, deltas: nat -> int,
                                             minInterval: int, maxInterval: int, fixed: bool)
    requires k <= |chunks| && minInterval < maxInterval
    requires forall i :: 0 <= deltas(i) < maxInterval - minInterval
    ensures var r := RunPass(chunks, k, sendOk, deltas, minInterval, maxInterval, fixed);
      && (!r.SpinsForever?)
      && (fixed ==> forall p :: p in Pauses(r.steps) ==> minInterval <= p < maxInterval)
      && (!fixed ==> forall p :: p in Pauses(r.steps) ==> 2 * minInterval <= p < minInterval + maxInterval)
    decreases |chunks| - k
  {
    if k < |chunks| && sendOk(k) && k + 1 < |chunks| {
      var pause := PauseAt(k, deltas, minInterval, maxInterval, fixed);
      var rest := RunPass(chunks, k + 1, sendOk, deltas, minInterval, maxInterval, fixed);
      PassPausesBounded(chunks, k + 1, sendOk, deltas, minInterval, maxInterval, fixed);
      SendThenSleep(chunks[k], pause, rest.steps);
    } else if k < |chunks| {
      assert Pauses([Send(chunks[k])]) == [] by {
        assert [Send(chunks[k])][1..] == [];
      }
    }
  }

  /**
   The wait before poll `k + 1` of `GetApiSessionWithTimeout`: 1 ms, doubled
   after each poll while still below one second.
   */
  function WaitAt(k: nat): (w: int)
    ensures Millisecond <= w
  {
    if k == 0 then Millisecond
    else
      var prev := WaitAt(k - 1);
      if prev < Second then 2 * prev else prev
  }

  /** The wait doubles from 1 ms for ten polls and then stays at 1024 ms, which is above one second. */
  lemma {:induction false} WaitAtIsCappedDoubling(k: nat)
    ensures k <= 10 ==> WaitAt(k) == Millisecond * Pow2(k)
    ensures k >= 10 ==> WaitAt(k) == 1024 * Millisecond
  {
    if k > 0 {
      WaitAtIsCappedDoubling(k - 1);
      if k <= 10 {
        assert Pow2(k - 1) <= 512 by { Pow2Mono(k - 1, 9); }
      }
    }
  }

  function Pow2(k: nat): (p: nat)
    ensures p >= 1
  {
    if k == 0 then 1 else 2 * Pow2(k - 1)
  }

  lemma {:induction false} Pow2Mono(a: nat, b: nat)
    requires a <= b
    ensures Pow2(a) <= Pow2(b)
    decreases b
  {
    if a < b {
      Pow2Mono(a, b - 1);
    }
  }

  /** The time of poll `k` of the waiting loop, counted from its start. */
  function Elapsed(k: nat): (e: int)
    ensures e >= k * Millisecond
  {
    if k == 0 then 0 else Elapsed(k - 1) + WaitAt(k - 1)
  }

  /**
   `GetApiSessionWithTimeout(token, timeout)` started at time `now`:
   `lookup(t)` is what `GetApiSession(token)` answers at time `t`. The
   session is looked up at once; if it is missing, it is polled with growing
   waits while the deadline `now + timeout` has not passed. Returns the
   first session found, or nil.
   */
  method GetApiSessionWithTimeout(now: int, timeout: int, lookup: int -> Option<ApiSession>) returns (s: Option<ApiSession>)
    ensures s.None? ==> lookup(now).None? && forall k :: now + Elapsed(k) < now + timeout ==> lookup(now + Elapsed(k)).None?
    ensures s.Some? ==> exists k: nat ::
      && (k == 0 || now + Elapsed(k) < now + timeout)
      && s == lookup(now + Elapsed(k))
      && (forall j :: 0 <= j < k ==> lookup(now + Elapsed(j)).None?)
  {
    var deadline := now + timeout;
    s := lookup(now);
    assert Elapsed(0) == 0;
    if s.None? {
      var wait := Millisecond;
      var t := now;
      var k: nat := 0;
      while t < deadline
        invariant t == now + Elapsed(k) && wait == WaitAt(k)
        invariant lookup(now).None?
        invariant forall j :: 0 <= j < k ==> lookup(now + Elapsed(j)).None?
        invariant s.None?
        decreases deadline - t
      {
        s := lookup(t);
        if s.Some? {
          assert s == lookup(now + Elapsed(k));
          return;
        }
        t := t + wait;
        if wait < Second {
          wait := wait * 2;
        }
        k := k + 1;
      }
      ElapsedMonotone(k);
    }
  }

  /** Poll times only grow, so every poll past the first that fails the deadline check is later than poll `k`. */
  lemma ElapsedMonotone(k: nat)
    ensures forall j :: j >= k ==> Elapsed(j) >= Elapsed(k)
  {
    forall j | j >= k
      ensures Elapsed(j) >= Elapsed(k)
    {
      ElapsedStep(k, j);
    }
  }

  lemma {:induction false} ElapsedStep(k: nat, j: nat)
    requires j >= k
    ensures Elapsed(j) >= Elapsed(k)
    decreases j
  {
    if j > k {
      ElapsedStep(k, j - 1);
    }
  }

  /**
   The wait gives up after a bounded number of polls: no poll past
   `timeout / 1 ms` is still before the deadline.
   */
  lemma PollsBounded(timeout: int, k: nat)
    requires k * Millisecond >= timeout
    ensures Elapsed(k) >= timeout
  {
  }
}
