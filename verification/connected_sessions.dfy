/**
 Connected API sessions: for each API-session token, the channels that
 currently carry it and the callback to run when each is removed.
 */
module ConnectedSessions {
  import opened Primitives
  import opened RouterState

  /** The channels bound to `token`, empty when it is not connected. */
  function ChannelsOf(m: Manager, token: string): (chans: map<Channel, CallbackId>)
    ensures token !in m.activeApiSessions ==> chans == map[]
  {
    if token in m.activeApiSessions then m.activeApiSessions[token] else map[]
  }

  /** `AddConnectedApiSession(token)`: ensures the token has an entry, keeping an existing one. */
  function AddConnectedApiSession(m: Manager, token: string): (r: Manager)
    ensures token in r.activeApiSessions && r.activeApiSessions[token] == ChannelsOf(m, token)
    ensures AgreeExcept(r.activeApiSessions, m.activeApiSessions, token)
    ensures token in m.activeApiSessions ==> r == m
    ensures r.(activeApiSessions := m.activeApiSessions) == m
  {
    if token in m.activeApiSessions then m
    else m.(activeApiSessions := m.activeApiSessions[token := map[]])
  }

  /** `RemoveConnectedApiSession(token)`: drops the token's entry without running any callback. */
  function RemoveConnectedApiSession(m: Manager, token: string): (r: Manager)
    ensures token !in r.activeApiSessions
    ensures AgreeExcept(r.activeApiSessions, m.activeApiSessions, token)
    ensures r.(activeApiSessions := m.activeApiSessions) == m
  {
    m.(activeApiSessions := m.activeApiSessions - {token})
  }

  /**
   `AddConnectedApiSessionWithChannel(token, removeCB, ch)`: binds `ch` to
   the token with its callback, creating the entry if needed and replacing
   an earlier callback for the same channel.
   */
  function AddConnectedApiSessionWithChannel(m: Manager, token: string, callback: CallbackId, ch: Channel): (r: Manager)
    ensures token in r.activeApiSessions
    ensures ch in r.activeApiSessions[token] && r.activeApiSessions[token][ch] == callback
    ensures forall c :: c != ch ==>
      (c in r.activeApiSessions[token] <==> c in ChannelsOf(m, token)) &&
      (c in ChannelsOf(m, token) ==> r.activeApiSessions[token][c] == ChannelsOf(m, token)[c])
    ensures AgreeExcept(r.activeApiSessions, m.activeApiSessions, token)
    ensures r.(activeApiSessions := m.activeApiSessions) == m
  {
    m.(activeApiSessions := m.activeApiSessions[token := ChannelsOf(m, token)[ch := callback]])
  }

  /**
   `RemoveConnectedApiSessionWithChannel(token, ch)`: for a connected token,
   runs and drops the channel's callback if it has one, then drops the token
   once no channel is left (also when it had none to begin with). An
   unconnected token changes nothing.
   */
  function RemoveConnectedApiSessionWithChannel(m: Manager, token: string, ch: Channel): (r: (Manager, seq<Note>))
    ensures token !in m.activeApiSessions ==> r == (m, [])
    ensures token in m.activeApiSessions ==>
      && r.1 == (if ch in m.activeApiSessions[token] then [Ran(m.activeApiSessions[token][ch])] else [])
      && (token in r.0.activeApiSessions <==> m.activeApiSessions[token].Keys - {ch} != {})
      && (token in r.0.activeApiSessions ==> r.0.activeApiSessions[token] == m.activeApiSessions[token] - {ch})
    ensures AgreeExcept(r.0.activeApiSessions, m.activeApiSessions, token)
    ensures r.0.(activeApiSessions := m.activeApiSessions) == m
  {
    if token !in m.activeApiSessions then (m, [])
    else
      var chans := m.activeApiSessions[token];
      var notes := if ch in chans then [Ran(chans[ch])] else [];
      var rest := chans - {ch};
      if |rest| == 0 then
        (m.(activeApiSessions := m.activeApiSessions - {token}), notes)
      else
        assert rest.Keys != {} by {
          var c :| c in rest.Keys;
        }
        (m.(activeApiSessions := m.activeApiSessions[token := rest]), notes)
  }

  /** Removing a channel from the entry it was just added to leaves the entry as it was. */
  lemma AddedChannelRest(m: Manager, token: string, callback: CallbackId, ch: Channel)
    requires ch !in ChannelsOf(m, token)
    ensures var added := AddConnectedApiSessionWithChannel(m, token, callback, ch);
      && added.activeApiSessions[token] - {ch} == ChannelsOf(m, token)
      && added.activeApiSessions[token][ch] == callback
  {
  }

  /**
   Binding a new channel to a token that has other channels, or none yet,
   and removing it again restores the connected sessions and runs the
   callback once.
   */
  lemma AddRemoveChannelRoundTrip(m: Manager, token: string, callback: CallbackId, ch: Channel)
    requires ch !in ChannelsOf(m, token)
    requires ChannelsOf(m, token) != map[] || token !in m.activeApiSessions
    ensures RemoveConnectedApiSessionWithChannel(AddConnectedApiSessionWithChannel(m, token, callback, ch), token, ch) == (m, [Ran(callback)])
  {
    var added := AddConnectedApiSessionWithChannel(m, token, callback, ch);
    AddedChannelRest(m, token, callback, ch);
    var r := RemoveConnectedApiSessionWithChannel(added, token, ch).0;
    if ChannelsOf(m, token) != map[] {
      assert ChannelsOf(m, token).Keys != {} by {
        var c :| c in ChannelsOf(m, token);
      }
      assert r.activeApiSessions == added.activeApiSessions[token := ChannelsOf(m, token)];
    } else {
      assert r.activeApiSessions == added.activeApiSessions - {token};
    }
    assert r.activeApiSessions == m.activeApiSessions;
  }

  /**
   A token whose entry was empty (connected with no channel) loses that
   entry when a channel is bound and removed again.
   */
  lemma AddRemoveChannelDropsEmptyEntry(m: Manager, token: string, callback: CallbackId, ch: Channel)
    requires token in m.activeApiSessions && m.activeApiSessions[token] == map[]
    ensures RemoveConnectedApiSessionWithChannel(AddConnectedApiSessionWithChannel(m, token, callback, ch), token, ch)
      == (RemoveConnectedApiSession(m, token), [Ran(callback)])
  {
    var added := AddConnectedApiSessionWithChannel(m, token, callback, ch);
    assert added.activeApiSessions[token] == map[ch := callback];
    assert added.activeApiSessions[token] - {ch} == map[];
    assert added.activeApiSessions - {token} == m.activeApiSessions - {token};
  }

  /** The number of open channels carrying `token`. */
  function OpenCount(m: Manager, closed: set<Channel>, token: string): (n: nat)
    ensures token !in m.activeApiSessions ==> n == 0
  {
    |ChannelsOf(m, token).Keys - closed|
  }

  /** `n` copies of `t`. */
  function Repeat(t: string, n: nat): (s: seq<string>)
    ensures |s| == n
    ensures forall i :: 0 <= i < n ==> s[i] == t
  {
    if n == 0 then [] else Repeat(t, n - 1) + [t]
  }

  /** `Repeat(t, n)` holds `t` exactly `n` times and nothing else. */
  lemma {:induction false} RepeatCounts(t: string, n: nat)
    ensures multiset(Repeat(t, n))[t] == n
    ensures forall u :: u != t ==> multiset(Repeat(t, n))[u] == 0
  {
    if n > 0 {
      RepeatCounts(t, n - 1);
      assert Repeat(t, n) == Repeat(t, n - 1) + [t];
    }
  }

  /** Visiting one more channel adds it to the count of open or of closed channels, never both. */
  lemma CountStep(done: set<Channel>, ch: Channel, closed: set<Channel>)
    requires ch !in done
    ensures |(done + {ch}) - closed| == |done - closed| + (if ch in closed then 0 else 1)
    ensures |(done + {ch}) * closed| == |done * closed| + (if ch in closed then 1 else 0)
  {
    if ch !in closed {
      assert (done + {ch}) - closed == (done - closed) + {ch};
      assert (done + {ch}) * closed == done * closed;
    } else {
      assert (done + {ch}) - closed == done - closed;
      assert (done + {ch}) * closed == (done * closed) + {ch};
    }
  }

  /**
   Appends `t` once per open channel of `chans`, visiting the channels in an
   unspecified order; returns the callbacks of the closed ones.
   */
  method VisitChannels(chans: map<Channel, CallbackId>, closed: set<Channel>, t: string) returns (open: seq<string>, toClose: seq<CallbackId>)
    ensures open == Repeat(t, |chans.Keys - closed|)
    ensures |toClose| == |chans.Keys * closed|
    ensures forall ch :: ch in chans && ch in closed ==> chans[ch] in toClose
    ensures forall x :: x in toClose ==> exists ch :: ch in chans && ch in closed && chans[ch] == x
  {
    open, toClose := [], [];
    var todo := chans.Keys;
    var done: set<Channel> := {};
    ghost var from: seq<Channel> := [];
    while todo != {}
      invariant done <= chans.Keys && todo == chans.Keys - done
      invariant open == Repeat(t, |done - closed|)
      invariant |toClose| == |done * closed|
      invariant forall ch :: ch in done && ch in closed ==> chans[ch] in toClose
      invariant |from| == |toClose|
      invariant forall i :: 0 <= i < |from| ==> from[i] in chans && from[i] in closed && chans[from[i]] == toClose[i]
      decreases |todo|
    {
      var ch :| ch in todo;
      CountStep(done, ch, closed);
      VisitedStep(chans.Keys, done, ch);
      if ch in closed {
        CloseStep(chans, closed, done, toClose, from, ch);
        toClose, from := toClose + [chans[ch]], from + [ch];
      } else {
        open := open + [t];
      }
      todo, done := todo - {ch}, done + {ch};
    }
    assert done == chans.Keys;
    forall x | x in toClose
      ensures exists ch :: ch in chans && ch in closed && chans[ch] == x
    {
      var i :| 0 <= i < |toClose| && toClose[i] == x;
      assert from[i] in chans && from[i] in closed && chans[from[i]] == x;
    }
  }

  /** Visiting one more channel takes it off the channels still to visit. */
  lemma VisitedStep(all: set<Channel>, done: set<Channel>, ch: Channel)
    requires ch in all && ch !in done
    ensures all - (done + {ch}) == (all - done) - {ch}
  {
  }

  /** Queueing the callback of closed channel `ch` keeps what `VisitChannels` knows of the queue. */
  lemma CloseStep(chans: map<Channel, CallbackId>, closed: set<Channel>, done: set<Channel>,
                  toClose: seq<CallbackId>, from: seq<Channel>, ch: Channel)
    requires ch in chans && ch in closed && |from| == |toClose| && done <= chans.Keys
    requires forall c :: c in done && c in closed ==> chans[c] in toClose
    requires forall i :: 0 <= i < |from| ==> from[i] in chans && from[i] in closed && chans[from[i]] == toClose[i]
    ensures forall c :: c in done + {ch} && c in closed ==> chans[c] in toClose + [chans[ch]]
    ensures forall i :: 0 <= i < |from| + 1 ==>
      (from + [ch])[i] in chans && (from + [ch])[i] in closed && chans[(from + [ch])[i]] == (toClose + [chans[ch]])[i]
  {
  }

  /** Appending `n` copies of `t` adds `n` to the count of `t` and nothing to any other. */
  lemma KeysStep(keys: seq<string>, t: string, n: nat)
    ensures forall u :: multiset(keys + Repeat(t, n))[u] == multiset(keys)[u] + (if u == t then n else 0)
  {
    RepeatCounts(t, n);
  }

  /** The channels that carry a token and are closed: their callbacks are owed a run. */
  ghost predicate OwedCallback(m: Manager, closed: set<Channel>, t: string, ch: Channel)
  {
    t in m.activeApiSessions && ch in m.activeApiSessions[t] && ch in closed
  }

  /** The (token, closed channel) entries of the tokens in `ts`. */
  ghost function OwedEntries(m: Manager, closed: set<Channel>, ts: set<string>): set<(string, Channel)>
  {
    set t, ch | t in ts && t in m.activeApiSessions && ch in m.activeApiSessions[t] && ch in closed :: (t, ch)
  }

  /** `x` is the callback of some closed channel of some token. */
  ghost predicate IsOwed(m: Manager, closed: set<Channel>, x: CallbackId)
  {
    exists t, ch :: OwedCallback(m, closed, t, ch) && m.activeApiSessions[t][ch] == x
  }

  /**
   The loop of `ActiveApiSessionTokens()`: visits every token and every
   channel in an unspecified order, listing the token once per open channel
   and collecting the callback of every closed one, once per closed channel.
   */
  method CollectTokens(m: Manager, closed: set<Channel>) returns (keys: seq<string>, toClose: seq<CallbackId>)
    ensures forall t :: multiset(keys)[t] == OpenCount(m, closed, t)
    ensures forall t, ch :: OwedCallback(m, closed, t, ch) ==> m.activeApiSessions[t][ch] in toClose
    ensures forall x :: x in toClose ==> IsOwed(m, closed, x)
    ensures |toClose| == |OwedEntries(m, closed, m.activeApiSessions.Keys)|
  {
    keys, toClose := [], [];
    var todo := m.activeApiSessions.Keys;
    while todo != {}
      invariant todo <= m.activeApiSessions.Keys
      invariant forall t :: multiset(keys)[t] == if t in todo then 0 else OpenCount(m, closed, t)
      invariant forall t, ch :: t !in todo && OwedCallback(m, closed, t, ch) ==> m.activeApiSessions[t][ch] in toClose
      invariant forall x :: x in toClose ==> IsOwed(m, closed, x)
      invariant |toClose| == |OwedEntries(m, closed, m.activeApiSessions.Keys - todo)|
      decreases |todo|
    {
      var t :| t in todo;
      var open, closing := VisitChannels(m.activeApiSessions[t], closed, t);
      CountsStep(m, closed, keys, todo, t);
      OwedStep(m, closed, toClose, closing, todo, t);
      EntriesStep(m, closed, toClose, closing, todo, t);
      keys, toClose := keys + open, toClose + closing;
      todo := todo - {t};
    }
    assert m.activeApiSessions.Keys - todo == m.activeApiSessions.Keys;
  }

  /** The pairs of one token with each channel of a set. */
  ghost function Tagged(t: string, chs: set<Channel>): set<(string, Channel)>
  {
    set ch | ch in chs :: (t, ch)
  }

  /** Pairing with one token keeps the number of channels. */
  lemma {:induction false} TaggedCard(t: string, chs: set<Channel>)
    ensures |Tagged(t, chs)| == |chs|
    decreases |chs|
  {
    if chs != {} {
      var c :| c in chs;
      TaggedCard(t, chs - {c});
      assert Tagged(t, chs) == Tagged(t, chs - {c}) + {(t, c)};
    }
  }

  /** Visiting one more token adds its closed channels to the owed entries. */
  lemma EntriesStep(m: Manager, closed: set<Channel>, toClose: seq<CallbackId>, closing: seq<CallbackId>, todo: set<string>, t: string)
    requires t in todo && todo <= m.activeApiSessions.Keys
    requires |toClose| == |OwedEntries(m, closed, m.activeApiSessions.Keys - todo)|
    requires |closing| == |m.activeApiSessions[t].Keys * closed|
    ensures |toClose + closing| == |OwedEntries(m, closed, m.activeApiSessions.Keys - (todo - {t}))|
  {
    var ts := m.activeApiSessions.Keys - todo;
    assert m.activeApiSessions.Keys - (todo - {t}) == ts + {t};
    var chs := m.activeApiSessions[t].Keys * closed;
    assert OwedEntries(m, closed, ts + {t}) == OwedEntries(m, closed, ts) + Tagged(t, chs);
    assert OwedEntries(m, closed, ts) !! Tagged(t, chs);
    TaggedCard(t, chs);
  }

  /** Listing a visited token once per open channel keeps the count of every token right. */
  lemma CountsStep(m: Manager, closed: set<Channel>, keys: seq<string>, todo: set<string>, t: string)
    requires t in todo && todo <= m.activeApiSessions.Keys
    requires forall u :: multiset(keys)[u] == if u in todo then 0 else OpenCount(m, closed, u)
    ensures var keys' := keys + Repeat(t, |m.activeApiSessions[t].Keys - closed|);
      forall u :: multiset(keys')[u] == if u in todo - {t} then 0 else OpenCount(m, closed, u)
  {
    KeysStep(keys, t, |m.activeApiSessions[t].Keys - closed|);
  }

  /** Collecting a visited token's closed callbacks keeps every owed callback of the visited tokens collected. */
  lemma OwedStep(m: Manager, closed: set<Channel>, toClose: seq<CallbackId>, closing: seq<CallbackId>, todo: set<string>, t: string)
    requires t in todo && todo <= m.activeApiSessions.Keys
    requires forall t', ch :: t' !in todo && OwedCallback(m, closed, t', ch) ==> m.activeApiSessions[t'][ch] in toClose
    requires forall ch :: ch in m.activeApiSessions[t] && ch in closed ==> m.activeApiSessions[t][ch] in closing
    requires forall x :: x in toClose ==> IsOwed(m, closed, x)
    requires forall x :: x in closing ==> exists ch :: ch in m.activeApiSessions[t] && ch in closed && m.activeApiSessions[t][ch] == x
    ensures forall t', ch :: t' !in todo - {t} && OwedCallback(m, closed, t', ch) ==> m.activeApiSessions[t'][ch] in toClose + closing
    ensures forall x :: x in toClose + closing ==> IsOwed(m, closed, x)
  {
    forall x | x in closing ensures IsOwed(m, closed, x) {
      var ch :| ch in m.activeApiSessions[t] && ch in closed && m.activeApiSessions[t][ch] == x;
      assert OwedCallback(m, closed, t, ch);
    }
  }

  /**
   `ActiveApiSessionTokens()` as written: each token once per open channel
   that carries it, in an unspecified order. The callbacks collected for the
   closed channels are dropped: no note is produced.
   */
  method ActiveApiSessionTokens(m: Manager, closed: set<Channel>) returns (keys: seq<string>, notes: seq<Note>)
    ensures forall t :: multiset(keys)[t] == OpenCount(m, closed, t)
    ensures notes == []
  {
    var toClose;
    keys, toClose := CollectTokens(m, closed);
    notes := [];
  }

  /**
   `ActiveApiSessionTokens()` with the collected callbacks run: the same
   tokens, and one `Ran` note per closed channel, running that channel's
   callback; no other callback runs.
   */
  method ActiveApiSessionTokensClosing(m: Manager, closed: set<Channel>) returns (keys: seq<string>, notes: seq<Note>)
    ensures forall t :: multiset(keys)[t] == OpenCount(m, closed, t)
    ensures forall t, ch :: OwedCallback(m, closed, t, ch) ==> Ran(m.activeApiSessions[t][ch]) in notes
    ensures forall i :: 0 <= i < |notes| ==> notes[i].Ran? && IsOwed(m, closed, notes[i].callback)
    ensures |notes| == |OwedEntries(m, closed, m.activeApiSessions.Keys)|
  {
    var toClose;
    keys, toClose := CollectTokens(m, closed);
    notes := RanAll(toClose);
  }

  /** One `Ran` note per callback, in order. */
  function RanAll(cbs: seq<CallbackId>): (notes: seq<Note>)
    ensures |notes| == |cbs|
    ensures forall i :: 0 <= i < |cbs| ==> notes[i] == Ran(cbs[i])
    ensures forall x :: x in cbs ==> Ran(x) in notes
  {
    if cbs == [] then [] else [Ran(cbs[0])] + RanAll(cbs[1..])
  }

  /**
   A token whose only channel is closed: it is not listed, and its callback
   is owed a run, which the version as written never gives it.
   */
  lemma ClosedChannelCallbackOwed(m: Manager, token: string, ch: Channel, callback: CallbackId)
    requires m.activeApiSessions == map[token := map[ch := callback]]
    ensures OpenCount(m, {ch}, token) == 0
    ensures OwedCallback(m, {ch}, token, ch) && m.activeApiSessions[token][ch] == callback
  {
    assert ChannelsOf(m, token).Keys - {ch} == {};
  }
}
