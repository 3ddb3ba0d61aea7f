/**
 The proxy device of `src/proxydev/device_simple.rs`: a registry of
 `(path, receiver)` sources shared under a mutex, and the event loop that
 snapshots it, waits on every snapshotted receiver plus a reload channel,
 forwards events to the virtual device, evicts closed sources and rebuilds.
 Threads become a nondeterministic choice of the next `Step`; receivers are
 channel identities; the virtual device's `write` is an input that may fail.
 */
module ProxyDevice {
  import opened Wrappers
  import opened SourceReader

  /** Identity of the receiving end of one reader's channel. */
  type ChanId = nat

  /** One registry entry: the device path and its channel. */
  datatype Source = Source(path: string, chan: ChanId)

  /** The shared `sources` vector, in insertion order. */
  type Registry = seq<Source>

  /** Capacity of the reload channel (`channel::bounded(1)`). */
  const ReloadCapacity: nat := 1

  /** Capacity of each reader's channel (`device_poller(path, 64)`). */
  const SourceChannelCapacity: nat := 64

  predicate HasPath(reg: Registry, path: string) {
    exists k :: 0 <= k < |reg| && reg[k].path == path
  }

  /** `num_sources`: the length of the registry, zero exactly when no path is registered. */
  function NumSources(reg: Registry): (n: nat)
    ensures n == 0 <==> forall path :: !HasPath(reg, path)
  {
    assert reg != [] ==> HasPath(reg, reg[0].path);
    |reg|
  }

  /** `iter().position(|(name, _)| name == path)`: the first index holding `path`. */
  function Position(reg: Registry, path: string): (r: Option<nat>)
    ensures r.None? <==> !HasPath(reg, path)
    ensures r.Some? ==> r.value < |reg| && reg[r.value].path == path
    ensures r.Some? ==> forall k :: 0 <= k < r.value ==> reg[k].path != path
  {
    if reg == [] then None
    else if reg[0].path == path then Some(0)
    else match Position(reg[1..], path)
      case None => None
      case Some(i) => Some(i + 1)
  }

  /**
   `remove_dev_from_list`: removes the first entry whose path is `path` and
   keeps the others in order; an absent path leaves the registry as it is.
   */
  function RemoveDevFromList(reg: Registry, path: string): (r: Registry)
    ensures !HasPath(reg, path) ==> r == reg
    ensures HasPath(reg, path) ==> |r| == |reg| - 1
    ensures HasPath(reg, path) ==>
      exists i :: 0 <= i < |reg| && reg[i].path == path
        && (forall k :: 0 <= k < i ==> reg[k].path != path)
        && r == reg[..i] + reg[i + 1..]
  {
    match Position(reg, path)
    case None => reg
    case Some(i) => reg[..i] + reg[i + 1..]
  }

  /** Removing a path that is not registered is a no-op: no error and the count is unchanged. */
  lemma RemoveAbsentIsNoOp(reg: Registry, path: string)
    requires !HasPath(reg, path)
    ensures RemoveDevFromList(reg, path) == reg
    ensures NumSources(RemoveDevFromList(reg, path)) == NumSources(reg)
  {
  }

  /** The entries with a given path, in registry order. */
  function WithPath(reg: Registry, path: string): (r: Registry)
    ensures forall k :: 0 <= k < |r| ==> r[k].path == path
  {
    if reg == [] then []
    else (if reg[0].path == path then [reg[0]] else []) + WithPath(reg[1..], path)
  }

  lemma {:induction false} WithPathAppend(a: Registry, b: Registry, path: string)
    ensures WithPath(a + b, path) == WithPath(a, path) + WithPath(b, path)
    decreases |a|
  {
    if a == [] {
      assert a + b == b;
    } else {
      assert (a + b)[0] == a[0];
      assert (a + b)[1..] == a[1..] + b;
      WithPathAppend(a[1..], b, path);
    }
  }

  /**
   Removal touches only the removed path: the entries of every other path
   are kept with their order, and of `path` only the first one goes.
   */
  lemma RemoveKeepsOtherPaths(reg: Registry, path: string, other: string)
    ensures other != path ==> WithPath(RemoveDevFromList(reg, path), other) == WithPath(reg, other)
    ensures HasPath(reg, path) ==>
      && |WithPath(reg, path)| >= 1
      && WithPath(RemoveDevFromList(reg, path), path) == WithPath(reg, path)[1..]
  {
    match Position(reg, path)
    case None =>
    case Some(i) =>
      assert reg == reg[..i] + [reg[i]] + reg[i + 1..];
      WithPathAppend(reg[..i] + [reg[i]], reg[i + 1..], other);
      WithPathAppend(reg[..i], [reg[i]], other);
      WithPathAppend(reg[..i], reg[i + 1..], other);
      WithPathAppend(reg[..i] + [reg[i]], reg[i + 1..], path);
      WithPathAppend(reg[..i], [reg[i]], path);
      WithPathAppend(reg[..i], reg[i + 1..], path);
      NoPathNoEntries(reg[..i], path);
      assert [reg[i]][1..] == [];
  }

  lemma {:induction false} NoPathNoEntries(reg: Registry, path: string)
    requires forall k :: 0 <= k < |reg| ==> reg[k].path != path
    ensures WithPath(reg, path) == []
    decreases |reg|
  {
    if reg != [] {
      NoPathNoEntries(reg[1..], path);
    }
  }

  /**
   `add_source_dev`: when the poller could not be started its error is
   returned and the registry is unchanged; otherwise `(path, rx)` is
   appended at the end, with no duplicate check.
   */
  function AddSourceDev(reg: Registry, path: string, poller: Result<ChanId, IoError>)
    : (r: Result<Registry, IoError>)
    ensures r.Failure? <==> poller.Failure?
    ensures r.Failure? ==> r.error == poller.error
    ensures r.Success? ==> |r.value| == |reg| + 1 && r.value[..|reg|] == reg
    ensures r.Success? ==> r.value[|reg|] == Source(path, poller.value)
  {
    match poller
    case Failure(e) => Failure(e)
    case Success(rx) => Success(reg + [Source(path, rx)])
  }

  /** Where the event loop is: about to snapshot, or blocked in `select`. */
  datatype Phase = Building | Waiting

  /**
   One reader's bounded channel: every event its reader has sent, the ones
   the event loop has received so far, and whether the sender still exists.
   The events still queued are `sent[|received|..]`.
   */
  datatype Channel = Channel(sent: seq<InputEvent>, received: seq<InputEvent>, open: bool)

  /** A fresh channel, as `device_poller` creates it. */
  const FreshChannel := Channel([], [], true)

  /** The number of events queued in `ch`. */
  function Queued(ch: Channel): int {
    |ch.sent| - |ch.received|
  }

  /**
   The proxy: the shared registry, the loop's local snapshot and phase, the
   number of queued reload signals, every reader channel ever created, and
   the events written to the virtual device.
   */
  datatype Proxy = Proxy(
    sources: Registry,
    snapshot: Registry,
    phase: Phase,
    reloadQueued: nat,
    chans: map<ChanId, Channel>,
    out: seq<InputEvent>)

  /**
   `Simple::new`: fails with the virtual device's error when it cannot be
   created; otherwise the registry is empty, the reload channel is empty,
   no reader exists and the loop is about to take its first snapshot.
   */
  function NewProxy(uinput: Outcome<IoError>): (r: Result<Proxy, IoError>)
    ensures r.Failure? <==> uinput.Fail?
    ensures r.Failure? ==> r.error == uinput.error
    ensures r.Success? ==> NumSources(r.value.sources) == 0 && r.value.out == []
    ensures r.Success? ==> r.value.phase == Building && r.value.reloadQueued == 0 && r.value.chans == map[]
    ensures r.Success? ==> Inv(r.value)
  {
    match uinput
    case Fail(e) => Failure(e)
    case Pass => Success(Proxy([], [], Building, 0, map[], []))
  }

  /** What the chosen select operation delivered. */
  datatype SelectOp =
    | ReloadSignal               // the reload channel had a message
    | SourceEvent(writeOk: bool) // a source's next event was received; whether `uin.write` succeeded
    | SourceClosed               // a source's channel is empty and its sender is gone

  /** One atomic move of the system. */
  datatype Step =
    | Rebuild                                                   // copy the registry under the lock
    | Select(idx: nat, op: SelectOp)                            // `select()` returned operation `idx`
    | AddSource(path: string, poller: Result<ChanId, IoError>)  // an `add_source_dev` call
    | ReaderSend(chan: ChanId, ev: InputEvent)                  // a reader's `tx.send(ev)` completed
    | ReaderStop(chan: ChanId)                                  // a reader exited and dropped its sender

  /**
   Whether operation `op` on a source channel is ready: an event is
   available when one is queued; the channel reports closure only once it is
   empty and its sender is gone.
   */
  predicate Ready(ch: Channel, op: SelectOp) {
    match op
    case ReloadSignal => false
    case SourceEvent(_) => Queued(ch) > 0
    case SourceClosed => !ch.open && Queued(ch) == 0
  }

  /**
   Which steps can happen. `select` returns an index in `0..=|snapshot|`;
   index `|snapshot|` is the reload channel, ready only when a signal is
   queued; lower indices are the snapshotted sources, ready as `Ready` says.
   A successful `add_source_dev` gets a new channel and completes only when
   the reload channel has room; a reader sends only while its channel is
   open and not full.
   */
  predicate Enabled(p: Proxy, step: Step) {
    match step
    case Rebuild => p.phase == Building
    case Select(idx, op) =>
      && p.phase == Waiting
      && idx <= |p.snapshot|
      && (idx == |p.snapshot| <==> op.ReloadSignal?)
      && (op.ReloadSignal? ==> p.reloadQueued > 0)
      && (idx < |p.snapshot| ==> p.snapshot[idx].chan in p.chans && Ready(p.chans[p.snapshot[idx].chan], op))
    case AddSource(_, poller) =>
      poller.Failure? || (p.reloadQueued < ReloadCapacity && poller.value !in p.chans)
    case ReaderSend(c, _) =>
      c in p.chans && p.chans[c].open && Queued(p.chans[c]) < SourceChannelCapacity
    case ReaderStop(c) => c in p.chans && p.chans[c].open
  }

  /** The effect of one step. */
  function Next(p: Proxy, step: Step): (p': Proxy)
    requires Enabled(p, step)
    ensures p.out <= p'.out
    ensures |p'.out| <= |p.out| + 1
    ensures p.chans.Keys <= p'.chans.Keys
  {
    match step
    case Rebuild => p.(snapshot := p.sources, phase := Waiting)
    case Select(idx, op) =>
      (match op
       case ReloadSignal => p.(reloadQueued := p.reloadQueued - 1, phase := Building)
       case SourceClosed =>
         p.(sources := RemoveDevFromList(p.sources, p.snapshot[idx].path), phase := Building)
       case SourceEvent(writeOk) =>
         var c := p.snapshot[idx].chan;
         var ch := p.chans[c];
         var ev := ch.sent[|ch.received|];
         p.(chans := p.chans[c := ch.(received := ch.received + [ev])],
            out := if writeOk then p.out + [ev] else p.out))
    case AddSource(path, poller) =>
      (match AddSourceDev(p.sources, path, poller)
       case Failure(_) => p
       case Success(reg) =>
         p.(sources := reg, reloadQueued := p.reloadQueued + 1,
            chans := p.chans[poller.value := FreshChannel]))
    case ReaderSend(c, ev) =>
      p.(chans := p.chans[c := p.chans[c].(sent := p.chans[c].sent + [ev])])
    case ReaderStop(c) =>
      p.(chans := p.chans[c := p.chans[c].(open := false)])
  }

  /** No channel appears twice in a registry. */
  predicate DistinctChans(reg: Registry) {
    forall i, j :: 0 <= i < j < |reg| ==> reg[i].chan != reg[j].chan
  }

  /** The loop has received, in order, a prefix of what the reader sent, and the channel is within capacity. */
  predicate ChannelOk(ch: Channel) {
    ch.received <= ch.sent && Queued(ch) <= SourceChannelCapacity
  }

  /**
   The loop's invariant: at most one reload is queued; while waiting, the
   snapshot is an in-order prefix of the registry (only appends happen
   between a rebuild and the next select); while waiting with no reload
   queued, the snapshot is the whole registry; every channel is consistent;
   and the registry holds existing channels, each at most once.
   */
  predicate Inv(p: Proxy) {
    && p.reloadQueued <= ReloadCapacity
    && (p.phase == Waiting ==> p.snapshot <= p.sources)
    && (p.phase == Waiting && p.reloadQueued == 0 ==> p.snapshot == p.sources)
    && (forall c :: c in p.chans ==> ChannelOk(p.chans[c]))
    && (forall k :: 0 <= k < |p.sources| ==> p.sources[k].chan in p.chans)
    && DistinctChans(p.sources)
  }

  /** The entries left after removing index `i`, position by position. */
  lemma RemoveAtShifts(reg: Registry, i: nat)
    requires i < |reg|
    ensures var r := reg[..i] + reg[i + 1..];
      && |r| == |reg| - 1
      && (forall k :: 0 <= k < i ==> r[k] == reg[k])
      && (forall k :: i <= k < |r| ==> r[k] == reg[k + 1])
  {
  }

  /** Removing one entry keeps the channels of a registry distinct and adds no entry. */
  lemma RemovePreservesDistinct(reg: Registry, path: string)
    requires DistinctChans(reg)
    ensures DistinctChans(RemoveDevFromList(reg, path))
    ensures forall k :: 0 <= k < |RemoveDevFromList(reg, path)| ==> RemoveDevFromList(reg, path)[k] in reg
  {
    match Position(reg, path)
    case None =>
    case Some(i) =>
      var r := reg[..i] + reg[i + 1..];
      RemoveAtShifts(reg, i);
      forall a, b | 0 <= a < b < |r| ensures r[a].chan != r[b].chan {
        assert r[a] == reg[if a < i then a else a + 1];
        assert r[b] == reg[if b < i then b else b + 1];
      }
      forall k | 0 <= k < |r| ensures r[k] in reg {
        assert r[k] == reg[if k < i then k else k + 1];
      }
  }

  lemma NextPreservesInv(p: Proxy, step: Step)
    requires Inv(p) && Enabled(p, step)
    ensures Inv(Next(p, step))
  {
    match step
    case Select(idx, SourceClosed) => EvictionPreservesInv(p, idx);
    case Select(idx, SourceEvent(w)) => ReceivePreservesInv(p, idx, w);
    case AddSource(path, poller) => AddPreservesInv(p, path, poller);
    case ReaderSend(c, ev) => ChannelStepPreservesInv(p, step);
    case ReaderStop(c) => ChannelStepPreservesInv(p, step);
    case _ =>
  }

  lemma EvictionPreservesInv(p: Proxy, idx: nat)
    requires Inv(p) && Enabled(p, Select(idx, SourceClosed))
    ensures Inv(Next(p, Select(idx, SourceClosed)))
  {
    var p' := Next(p, Select(idx, SourceClosed));
    RemovePreservesDistinct(p.sources, p.snapshot[idx].path);
    forall k | 0 <= k < |p'.sources| ensures p'.sources[k].chan in p'.chans {
      var j :| 0 <= j < |p.sources| && p.sources[j] == p'.sources[k];
    }
  }

  lemma ReceivePreservesInv(p: Proxy, idx: nat, writeOk: bool)
    requires Inv(p) && Enabled(p, Select(idx, SourceEvent(writeOk)))
    ensures Inv(Next(p, Select(idx, SourceEvent(writeOk))))
  {
    var ch := p.chans[p.snapshot[idx].chan];
    assert ch.received + [ch.sent[|ch.received|]] <= ch.sent;
  }

  lemma AddPreservesInv(p: Proxy, path: string, poller: Result<ChanId, IoError>)
    requires Inv(p) && Enabled(p, AddSource(path, poller))
    ensures Inv(Next(p, AddSource(path, poller)))
  {
    if poller.Success? {
      var p' := Next(p, AddSource(path, poller));
      assert p'.sources == p.sources + [Source(path, poller.value)];
      forall i, j | 0 <= i < j < |p'.sources| ensures p'.sources[i].chan != p'.sources[j].chan {
        if j == |p.sources| {
          assert p.sources[i].chan in p.chans;
        }
      }
    }
  }

  lemma ChannelStepPreservesInv(p: Proxy, step: Step)
    requires step.ReaderSend? || step.ReaderStop?
    requires Inv(p) && Enabled(p, step)
    ensures Inv(Next(p, step))
  {
  }

  /** Apply a sequence of steps; `None` if one of them is not enabled when its turn comes. */
  function Run(p: Proxy, steps: seq<Step>): Option<Proxy>
    decreases |steps|
  {
    if steps == [] then Some(p)
    else if !Enabled(p, steps[0]) then None
    else Run(Next(p, steps[0]), steps[1..])
  }

  /** Every reachable state keeps the invariant, and the output only grows. */
  lemma {:induction false} RunPreservesInv(p: Proxy, steps: seq<Step>)
    requires Inv(p)
    ensures Run(p, steps).Some? ==> Inv(Run(p, steps).value)
    ensures Run(p, steps).Some? ==> p.out <= Run(p, steps).value.out
    decreases |steps|
  {
    if steps != [] && Enabled(p, steps[0]) {
      NextPreservesInv(p, steps[0]);
      RunPreservesInv(Next(p, steps[0]), steps[1..]);
    }
  }

  /**
   The event written for a source is the oldest event still queued on its
   channel, unmodified, and it moves to the received part; a failed write
   only loses that event: the source stays and the loop does not rebuild.
   */
  lemma EventForwardedUnmodified(p: Proxy, idx: nat, writeOk: bool)
    requires Inv(p)
    requires Enabled(p, Select(idx, SourceEvent(writeOk)))
    ensures idx < |p.snapshot| && p.snapshot[idx].chan in p.chans
    ensures var c := p.snapshot[idx].chan;
      var ch := p.chans[c];
      var p' := Next(p, Select(idx, SourceEvent(writeOk)));
      && |ch.received| < |ch.sent|
      && c in p'.chans && p'.chans[c].received == ch.received + [ch.sent[|ch.received|]]
      && (writeOk ==> p'.out == p.out + [ch.sent[|ch.received|]])
      && (!writeOk ==> p'.out == p.out)
      && (forall d :: d in p.chans && d != c ==> d in p'.chans && p'.chans[d] == p.chans[d])
      && p'.sources == p.sources && p'.snapshot == p.snapshot
      && p'.phase == Waiting && p'.reloadQueued == p.reloadQueued
  {
  }

  /**
   Per-reader order: in every reachable state, what the loop has received
   from a channel is the beginning of what its reader sent, in send order,
   and no channel holds more than its capacity.
   */
  lemma ReceivedInSendOrder(p: Proxy, steps: seq<Step>, c: ChanId)
    requires Inv(p)
    requires Run(p, steps).Some?
    ensures var q := Run(p, steps).value;
      c in q.chans ==> q.chans[c].received <= q.chans[c].sent && Queued(q.chans[c]) <= SourceChannelCapacity
  {
    RunPreservesInv(p, steps);
  }

  /** The reader steps that send `evs` on channel `c`, one event each. */
  function Sends(c: ChanId, evs: seq<InputEvent>): (r: seq<Step>)
    ensures |r| == |evs|
    ensures forall k :: 0 <= k < |r| ==> r[k] == ReaderSend(c, evs[k])
  {
    seq(|evs|, k requires 0 <= k < |evs| => ReaderSend(c, evs[k]))
  }

  /**
   What a reader sends arrives on its channel: while the channel is open and
   has room, a reader sending `evs` appends exactly `evs` to the channel's
   sent events, in order, and touches nothing else.
   */
  lemma {:induction false} ReaderSendsArrive(p: Proxy, c: ChanId, evs: seq<InputEvent>)
    requires c in p.chans && p.chans[c].open
    requires Queued(p.chans[c]) + |evs| <= SourceChannelCapacity
    ensures Run(p, Sends(c, evs)).Some?
    ensures var q := Run(p, Sends(c, evs)).value;
      && q.chans == p.chans[c := p.chans[c].(sent := p.chans[c].sent + evs)]
      && q.sources == p.sources && q.snapshot == p.snapshot && q.phase == p.phase
      && q.reloadQueued == p.reloadQueued && q.out == p.out
    decreases |evs|
  {
    if evs == [] {
      assert p.chans[c].sent + evs == p.chans[c].sent;
      assert p.chans[c := p.chans[c]] == p.chans;
    } else {
      var p1 := Next(p, ReaderSend(c, evs[0]));
      assert Sends(c, evs)[1..] == Sends(c, evs[1..]);
      ReaderSendsArrive(p1, c, evs[1..]);
      assert p.chans[c].sent + evs == p.chans[c].sent + [evs[0]] + evs[1..];
    }
  }

  /**
   A channel that is closed and drained never changes again: no reader can
   send on it, no step can receive from it, and no new source reuses it, so
   nothing more is written from it.
   */
  lemma {:induction false} DrainedChannelStaysQuiet(p: Proxy, steps: seq<Step>, c: ChanId)
    requires c in p.chans && !p.chans[c].open && Queued(p.chans[c]) == 0
    ensures Run(p, steps).Some? ==> c in Run(p, steps).value.chans
    ensures Run(p, steps).Some? ==> Run(p, steps).value.chans[c] == p.chans[c]
    decreases |steps|
  {
    if steps != [] && Enabled(p, steps[0]) {
      var p1 := Next(p, steps[0]);
      assert c in p1.chans && p1.chans[c] == p.chans[c];
      DrainedChannelStaysQuiet(p1, steps[1..], c);
    }
  }

  /**
   A closed source is always still registered when the loop sees it close,
   so eviction shrinks the registry by exactly one and the loop rebuilds;
   from then on its channel never delivers anything again.
   */
  lemma ClosedSourceEvicted(p: Proxy, idx: nat, later: seq<Step>)
    requires Inv(p)
    requires Enabled(p, Select(idx, SourceClosed))
    ensures idx < |p.snapshot|
    ensures HasPath(p.sources, p.snapshot[idx].path)
    ensures NumSources(Next(p, Select(idx, SourceClosed)).sources) == NumSources(p.sources) - 1
    ensures Next(p, Select(idx, SourceClosed)).phase == Building
    ensures var c, p' := p.snapshot[idx].chan, Next(p, Select(idx, SourceClosed));
      Run(p', later).Some? ==> c in Run(p', later).value.chans && Run(p', later).value.chans[c] == p.chans[c]
  {
    var p' := Next(p, Select(idx, SourceClosed));
    DrainedChannelStaysQuiet(p', later, p.snapshot[idx].chan);
  }

  /**
   When the closed entry is the first with its path, exactly that entry is
   evicted, and the next snapshot no longer waits on its channel.
   */
  lemma ClosedFirstEntryEvicted(p: Proxy, idx: nat)
    requires Inv(p)
    requires Enabled(p, Select(idx, SourceClosed))
    requires forall k :: 0 <= k < idx ==> p.snapshot[k].path != p.snapshot[idx].path
    ensures Next(p, Select(idx, SourceClosed)).sources == p.sources[..idx] + p.sources[idx + 1..]
    ensures var p2 := Next(Next(p, Select(idx, SourceClosed)), Rebuild);
      forall k :: 0 <= k < |p2.snapshot| ==> p2.snapshot[k].chan != p.snapshot[idx].chan
  {
    var r := p.sources[..idx] + p.sources[idx + 1..];
    assert p.sources[idx] == p.snapshot[idx];
    forall k | 0 <= k < |r| ensures r[k].chan != p.snapshot[idx].chan {
      assert r[k] == p.sources[if k < idx then k else k + 1];
    }
  }

  /**
   A successful add queues one reload; whenever the loop waits on a snapshot
   that misses a registered source, the reload channel is ready, and the
   reload followed by the rebuild waits on every registered source.
   */
  lemma AddedSourceBecomesVisible(p: Proxy, path: string, rx: ChanId)
    requires Inv(p)
    requires Enabled(p, AddSource(path, Success(rx)))
    ensures var p' := Next(p, AddSource(path, Success(rx)));
      && p'.reloadQueued == p.reloadQueued + 1
      && p'.sources == p.sources + [Source(path, rx)]
      && rx in p'.chans && p'.chans[rx] == FreshChannel
      && (p'.phase == Waiting ==> Enabled(p', Select(|p'.snapshot|, ReloadSignal)))
  {
  }

  lemma StaleSnapshotHasReloadQueued(p: Proxy)
    requires Inv(p)
    requires p.phase == Waiting && p.snapshot != p.sources
    ensures Enabled(p, Select(|p.snapshot|, ReloadSignal))
    ensures var p' := Next(Next(p, Select(|p.snapshot|, ReloadSignal)), Rebuild);
      p'.snapshot == p.sources && p'.phase == Waiting && Inv(p')
  {
    NextPreservesInv(p, Select(|p.snapshot|, ReloadSignal));
    NextPreservesInv(Next(p, Select(|p.snapshot|, ReloadSignal)), Rebuild);
  }

  /**
   `select` blocks only when nothing is ready: a waiting loop has an enabled
   select whenever a reload is queued or some snapshotted channel has a
   queued event or is closed and drained.
   */
  lemma SelectReadiness(p: Proxy, idx: nat)
    requires Inv(p) && p.phase == Waiting && idx < |p.snapshot|
    ensures p.snapshot[idx].chan in p.chans
    ensures p.reloadQueued > 0 <==> Enabled(p, Select(|p.snapshot|, ReloadSignal))
    ensures Queued(p.chans[p.snapshot[idx].chan]) > 0 <==> Enabled(p, Select(idx, SourceEvent(true)))
    ensures var ch := p.chans[p.snapshot[idx].chan];
      !ch.open && Queued(ch) == 0 <==> Enabled(p, Select(idx, SourceClosed))
  {
    assert p.snapshot[idx] == p.sources[idx];
  }

  /**
   `add_source_dev` blocks while the reload channel is full: with a reload
   already queued, a successful add cannot complete until the loop takes it.
   */
  lemma AddBlocksOnQueuedReload(p: Proxy, path: string, rx: ChanId)
    requires Inv(p)
    ensures Enabled(p, AddSource(path, Success(rx))) <==> p.reloadQueued == 0 && rx !in p.chans
  {
  }

  /**
   With two registered devices, the first one's reader stopping evicts it
   once its queue is drained: the registry goes from two sources to one, and
   after the rebuild the other source's queued event reaches the virtual device.
   */
  lemma EvictionScenario(p: Proxy, a: Source, b: Source, ev: InputEvent)
    requires Inv(p) && p.phase == Waiting
    requires p.sources == [a, b] && p.snapshot == [a, b]
    requires a.path != b.path
    requires a.chan in p.chans && b.chan in p.chans
    requires p.chans[a.chan] == Channel([], [], false)
    requires p.chans[b.chan] == Channel([ev], [], true)
    ensures var r := Run(p, [Select(0, SourceClosed), Rebuild, Select(0, SourceEvent(true))]);
      && r.Some?
      && r.value.sources == [b] && r.value.snapshot == [b]
      && r.value.out == p.out + [ev]
  {
    var p1 := Next(p, Select(0, SourceClosed));
    assert Position(p.sources, a.path) == Some(0);
    assert p1.sources == [b];
    var p2 := Next(p1, Rebuild);
    var p3 := Next(p2, Select(0, SourceEvent(true)));
    var steps := [Select(0, SourceClosed), Rebuild, Select(0, SourceEvent(true))];
    assert Run(p3, []) == Some(p3);
    assert Run(p2, steps[2..]) == Some(p3);
    assert Run(p1, steps[1..]) == Some(p3);
  }
}
