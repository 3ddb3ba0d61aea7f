/**
 The per-device reader of `src/proxydev/evdev.rs`: `device_poller` opens and
 grabs the device, then a thread reads batches of at most 128 events into a
 reused buffer and forwards `events[..res]` one by one on a channel, stopping
 at the first read error or the first failed send. The device and the
 channel's receiver are environment inputs: the results of successive reads,
 and how many events the receiver accepts before it goes away.
 */
module SourceReader {
  import opened Wrappers

  /** `input_event`: forwarded unmodified, never interpreted. */
  datatype InputEvent = InputEvent(sec: int, usec: int, evType: int, code: int, value: int)

  const ZeroEvent: InputEvent := InputEvent(0, 0, 0, 0, 0)

  /** Length of the reader's event buffer. */
  const ReadBufferLen: nat := 128

  /** One `dev.read(&mut events)`: the events written at the front of the buffer, or an error. */
  datatype ReadResult = ReadOk(batch: seq<InputEvent>) | ReadErr(error: IoError)

  /** A read never returns more events than the buffer holds. */
  predicate FitsBuffer(r: ReadResult) {
    r.ReadOk? ==> |r.batch| <= ReadBufferLen
  }

  /**
   The part of `device_poller` that runs before the thread: open, then grab.
   The first failure is returned and no reader is started.
   */
  function OpenAndGrab(open: Outcome<IoError>, grab: Outcome<IoError>): (r: Outcome<IoError>)
    ensures r.Pass? <==> open.Pass? && grab.Pass?
    ensures open.Fail? ==> r == open
    ensures open.Pass? && grab.Fail? ==> r == grab
  {
    if open.Fail? then open else grab
  }

  /** The buffer after a successful read: the batch overwrites its front, the rest is stale. */
  function ReadInto(buffer: seq<InputEvent>, batch: seq<InputEvent>): (b: seq<InputEvent>)
    requires |batch| <= |buffer|
    ensures |b| == |buffer|
    ensures b[..|batch|] == batch
    ensures b[|batch|..] == buffer[|batch|..]
  {
    batch + buffer[|batch|..]
  }

  /**
   Reference for the reader's lifetime: the in-order concatenation of the
   successful batches that come before the first read error.
   */
  function Forwardable(results: seq<ReadResult>): seq<InputEvent> {
    if results == [] then []
    else match results[0]
      case ReadErr(_) => []
      case ReadOk(batch) => batch + Forwardable(results[1..])
  }

  /** The first read error, if any. */
  function FirstError(results: seq<ReadResult>): Option<IoError> {
    if results == [] then None
    else match results[0]
      case ReadErr(e) => Some(e)
      case ReadOk(_) => FirstError(results[1..])
  }

  lemma {:induction false} ForwardableAppend(a: seq<ReadResult>, b: seq<ReadResult>)
    ensures FirstError(a + b) == (if FirstError(a).Some? then FirstError(a) else FirstError(b))
    ensures Forwardable(a + b)
         == Forwardable(a) + (if FirstError(a).None? then Forwardable(b) else [])
    decreases |a|
  {
    if a == [] {
      assert a + b == b;
    } else {
      assert (a + b)[0] == a[0];
      assert (a + b)[1..] == a[1..] + b;
      ForwardableAppend(a[1..], b);
    }
  }

  /** After a read error nothing more is forwarded, whatever later results would return. */
  lemma NothingAfterReadError(a: seq<ReadResult>, e: IoError, b: seq<ReadResult>)
    ensures Forwardable(a + [ReadErr(e)] + b) == Forwardable(a)
  {
    ForwardableAppend(a, [ReadErr(e)] + b);
    assert a + [ReadErr(e)] + b == a + ([ReadErr(e)] + b);
  }

  /** Each read forwards at most a buffer's worth of events. */
  lemma {:induction false} ForwardableBound(results: seq<ReadResult>)
    requires forall i :: 0 <= i < |results| ==> FitsBuffer(results[i])
    ensures |Forwardable(results)| <= ReadBufferLen * |results|
    decreases |results|
  {
    if results != [] {
      ForwardableBound(results[1..]);
    }
  }

  /** Splitting the read results where no error has happened yet. */
  lemma ForwardableSplit(results: seq<ReadResult>, i: nat)
    requires i <= |results|
    requires FirstError(results[..i]).None?
    ensures Forwardable(results) == Forwardable(results[..i]) + Forwardable(results[i..])
    ensures FirstError(results) == FirstError(results[i..])
  {
    ForwardableAppend(results[..i], results[i..]);
    assert results[..i] + results[i..] == results;
  }

  /** Extending the error-free prefix by one successful read adds its batch. */
  lemma ForwardableExtend(results: seq<ReadResult>, i: nat)
    requires i < |results| && results[i].ReadOk?
    requires FirstError(results[..i]).None?
    ensures FirstError(results[..i + 1]).None?
    ensures Forwardable(results[..i + 1]) == Forwardable(results[..i]) + results[i].batch
  {
    ForwardableAppend(results[..i], [results[i]]);
    assert results[..i + 1] == results[..i] + [results[i]];
    assert Forwardable([results[i]]) == results[i].batch + Forwardable([]);
  }

  /** Why the reader thread ended, or that it is still waiting on its next read. */
  datatype ReaderExit = ReadFailed(error: IoError) | ReceiverGone | StillReading

  /** The first `n` events, when the receiver accepts only `n`. */
  function Accepted(s: seq<InputEvent>, limit: Option<nat>): (r: seq<InputEvent>)
    ensures r <= s
    ensures limit.None? ==> r == s
    ensures limit.Some? ==> |r| == if |s| <= limit.value then |s| else limit.value
  {
    match limit
    case None => s
    case Some(n) => if |s| <= n then s else s[..n]
  }

  /**
   The forwarding loop over one batch, `for ev in &events[..res]`: sends each
   event in buffer order and stops at the first failed send, which happens
   once the receiver has accepted `receiverLimit` events in all.
   */
  method SendBatch(sent: seq<InputEvent>, buffer: seq<InputEvent>, res: nat, receiverLimit: Option<nat>)
    returns (sent': seq<InputEvent>, gone: bool)
    requires res <= |buffer|
    requires receiverLimit.Some? ==> |sent| <= receiverLimit.value
    ensures sent' == Accepted(sent + buffer[..res], receiverLimit)
    ensures gone <==> receiverLimit.Some? && receiverLimit.value < |sent| + res
    ensures receiverLimit.Some? ==> |sent'| <= receiverLimit.value
  {
    sent' := sent;
    for j := 0 to res
      invariant sent' == sent + buffer[..j]
      invariant receiverLimit.Some? ==> |sent'| <= receiverLimit.value
    {
      if receiverLimit.Some? && |sent'| == receiverLimit.value {
        assert (sent + buffer[..res])[..receiverLimit.value] == sent';
        return sent', true;
      }
      sent' := sent' + [buffer[j]];
    }
    gone := false;
  }

  /**
   The reader thread. `results` are the results of its successive reads and
   `receiverLimit` the number of events the receiver accepts before it is
   dropped (`None`: never). It returns what it sent and why it stopped.
   */
  method RunReader(results: seq<ReadResult>, receiverLimit: Option<nat>)
    returns (sent: seq<InputEvent>, exit: ReaderExit)
    requires forall i :: 0 <= i < |results| ==> FitsBuffer(results[i])
    ensures sent == Accepted(Forwardable(results), receiverLimit)
    ensures exit == ReceiverGone
        <==> receiverLimit.Some? && receiverLimit.value < |Forwardable(results)|
    ensures exit.ReadFailed? <==> exit != ReceiverGone && FirstError(results).Some?
    ensures exit.ReadFailed? ==> FirstError(results) == Some(exit.error)
  {
    var buffer := seq(ReadBufferLen, _ => ZeroEvent);
    sent := [];
    var i := 0;
    while i < |results|
      invariant 0 <= i <= |results|
      invariant |buffer| == ReadBufferLen
      invariant FirstError(results[..i]).None?
      invariant sent == Forwardable(results[..i])
      invariant receiverLimit.Some? ==> |sent| <= receiverLimit.value
    {
      ForwardableSplit(results, i);
      match results[i]
      case ReadErr(e) =>
        exit := ReadFailed(e);
        return;
      case ReadOk(batch) =>
        ForwardableExtend(results, i);
        buffer := ReadInto(buffer, batch);
        var gone;
        sent, gone := SendBatch(sent, buffer, |batch|, receiverLimit);
        if gone {
          ForwardableSplit(results, i + 1);
          exit := ReceiverGone;
          return;
        }
        i := i + 1;
    }
    assert results[..i] == results;
    exit := StillReading;
  }
}
