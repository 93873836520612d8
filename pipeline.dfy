/** One invocation of the remove-newlines-and-paste pipeline: the copy chord, a settle
    delay, a clipboard read, the transform, a clipboard write, a second settle delay and
    the paste chord. Every operating-system capability (input simulation, clipboard read
    and write) is injected: how it answers is an input, and every call made to it is
    recorded in an effect log. Each step runs only if the step before it succeeded. */
module Pipeline {
  import opened Transform

  datatype Option<T> = None | Some(value: T)

  /** The keys the pipeline simulates; any other key, the trigger key among them, is `Other`. */
  datatype Key = ControlLeft | KeyC | KeyV | Other(code: nat)

  /** The phase of a key event: only the key and press/release matter. */
  datatype EventType = KeyPress(key: Key) | KeyRelease(key: Key)

  /** One call made to a capability, recorded when it is made, whether it succeeds or not. */
  datatype Effect =
    | Simulated(event: EventType)     // a synthetic key event handed to the input simulator
    | Slept(ms: nat)                  // an unconditional wait
    | ClipboardRead                   // a request for the clipboard's text
    | ClipboardWritten(text: string)  // a request to replace the clipboard's text

  /** How an invocation ends: success (including the empty-clipboard no-op), or the step
      that failed; `SimFail(KeyC)` is the copy chord, `SimFail(KeyV)` the paste chord. */
  datatype Outcome = Ok | SimFail(letter: Key) | ReadFail | WriteFail

  /** How the operating system answers the capability calls of one invocation.
      `rejected` holds the ordinals, counted from 0 in call order, of the simulate calls it
      refuses: 0 to 3 are the copy chord's, 4 to 7 the paste chord's.
      `clipboardAtRead` is what the clipboard holds once the foreground application has
      reacted to the copy chord; `None` when it holds no text, so that the read fails.
      `writeAccepted` says whether the write of the transformed text is accepted. */
  datatype Host = Host(rejected: set<nat>, clipboardAtRead: Option<string>, writeAccepted: bool)

  /** What an invocation leaves behind: its outcome, the clipboard, and the calls it made. */
  datatype Run = Run(outcome: Outcome, clipboard: Option<string>, effects: seq<Effect>)

  /** The wait after the copy chord and after the write, in milliseconds. */
  const SettleMs: nat := 150
  /** The wait between the four key events of a chord, in milliseconds. */
  const KeyGapMs: nat := 30
  /** Ordinal of the first simulate call of the copy chord and of the paste chord. */
  const CopyFirst: nat := 0
  const PasteFirst: nat := 4

  /** The four key events of a chord with `letter`, in the order they are simulated. */
  function ChordEvents(letter: Key): seq<EventType>
  {
    [KeyPress(ControlLeft), KeyPress(letter), KeyRelease(letter), KeyRelease(ControlLeft)]
  }

  /** The calls of a chord in which all four simulate calls succeed. */
  function ChordTrace(letter: Key): seq<Effect>
  {
    [Simulated(KeyPress(ControlLeft)), Slept(KeyGapMs),
     Simulated(KeyPress(letter)), Slept(KeyGapMs),
     Simulated(KeyRelease(letter)), Slept(KeyGapMs),
     Simulated(KeyRelease(ControlLeft))]
  }

  /** The position within a chord (0 to 3) of its first refused simulate call, if any,
      when the chord's calls have ordinals `first` to `first + 3`. */
  function FirstRejected(rejected: set<nat>, first: nat): (r: Option<nat>)
    ensures r.Some? ==> r.value < 4 && first + r.value in rejected
    ensures forall n :: first <= n < first + (if r.None? then 4 else r.value) ==> n !in rejected
  {
    if first in rejected then Some(0)
    else if first + 1 in rejected then Some(1)
    else if first + 2 in rejected then Some(2)
    else if first + 3 in rejected then Some(3)
    else None
  }

  /** The calls a chord makes: its full trace, or the trace up to and including the
      first refused simulate call. */
  function ChordEffects(letter: Key, rejected: set<nat>, first: nat): seq<Effect>
  {
    match FirstRejected(rejected, first)
    case None => ChordTrace(letter)
    case Some(i) => ChordTrace(letter)[..2 * i + 1]
  }

  /** The calls of an invocation in which every capability call succeeds on `text`. */
  function SuccessTrace(text: string): seq<Effect>
  {
    ChordTrace(KeyC)
    + [Slept(SettleMs), ClipboardRead, ClipboardWritten(Flatten(text)), Slept(SettleMs)]
    + ChordTrace(KeyV)
  }

  /** One invocation that starts with the clipboard holding `clip`. */
  function Invocation(clip: Option<string>, host: Host): Run
  {
    var copy := ChordEffects(KeyC, host.rejected, CopyFirst);
    if FirstRejected(host.rejected, CopyFirst).Some? then Run(SimFail(KeyC), clip, copy)
    else
      var read := copy + [Slept(SettleMs), ClipboardRead];
      match host.clipboardAtRead
      case None => Run(ReadFail, None, read)
      case Some(text) =>
        if text == [] then Run(Ok, Some(text), read)
        else
          var write := read + [ClipboardWritten(Flatten(text))];
          if !host.writeAccepted then Run(WriteFail, Some(text), write)
          else
            var paste := write + [Slept(SettleMs)] + ChordEffects(KeyV, host.rejected, PasteFirst);
            var pasted := FirstRejected(host.rejected, PasteFirst).None?;
            Run(if pasted then Ok else SimFail(KeyV), Some(Flatten(text)), paste)
  }

  /** The key events handed to the input simulator, in order. */
  function Simulations(effects: seq<Effect>): seq<EventType>
  {
    if effects == [] then []
    else (if effects[0].Simulated? then [effects[0].event] else []) + Simulations(effects[1..])
  }

  /** No call touches the clipboard. */
  predicate NoClipboardAccess(effects: seq<Effect>)
  {
    forall k :: 0 <= k < |effects| ==> effects[k].Simulated? || effects[k].Slept?
  }

  /** No write to the clipboard is attempted. */
  predicate NoWrite(effects: seq<Effect>)
  {
    forall k :: 0 <= k < |effects| ==> !effects[k].ClipboardWritten?
  }

  /** The paste chord is never started. */
  predicate NoPaste(effects: seq<Effect>)
  {
    Simulated(KeyPress(KeyV)) !in effects
  }

  lemma {:induction false} SimulationsAppend(a: seq<Effect>, b: seq<Effect>)
    ensures Simulations(a + b) == Simulations(a) + Simulations(b)
  {
    if a == [] {
      assert a + b == b;
    } else {
      assert (a + b)[0] == a[0];
      assert (a + b)[1..] == a[1..] + b;
      SimulationsAppend(a[1..], b);
    }
  }

  /** A chord simulates Ctrl press, letter press, letter release, Ctrl release, in that
      order; it stops at the first refused call, which is the last call it makes. */
  lemma ChordOrder(letter: Key, rejected: set<nat>, first: nat)
    ensures ChordEffects(letter, rejected, first) <= ChordTrace(letter)
    ensures FirstRejected(rejected, first).None? ==>
      Simulations(ChordEffects(letter, rejected, first)) == ChordEvents(letter)
    ensures FirstRejected(rejected, first).Some? ==>
      var i := FirstRejected(rejected, first).value;
      var effects := ChordEffects(letter, rejected, first);
      Simulations(effects) == ChordEvents(letter)[..i + 1] &&
      effects[|effects| - 1] == Simulated(ChordEvents(letter)[i])
  {
    var t := ChordTrace(letter);
    var e := ChordEvents(letter);
    var s0, s1, s2, s3 := [t[0]], [t[1], t[2]], [t[3], t[4]], [t[5], t[6]];
    assert Simulations(s0) == [e[0]] by { assert s0[1..] == []; }
    assert Simulations(s1) == [e[1]] by { assert s1[1..][1..] == []; }
    assert Simulations(s2) == [e[2]] by { assert s2[1..][1..] == []; }
    assert Simulations(s3) == [e[3]] by { assert s3[1..][1..] == []; }
    SimulationsAppend(s0, s1);
    SimulationsAppend(s0 + s1, s2);
    SimulationsAppend(s0 + s1 + s2, s3);
    match FirstRejected(rejected, first)
    case None =>
      assert t == s0 + s1 + s2 + s3;
    case Some(i) =>
      if i == 0 {
        assert t[..1] == s0;
        assert e[..1] == [e[0]];
      } else if i == 1 {
        assert t[..3] == s0 + s1;
        assert e[..2] == [e[0], e[1]];
      } else if i == 2 {
        assert t[..5] == s0 + s1 + s2;
        assert e[..3] == [e[0], e[1], e[2]];
      } else {
        assert t[..7] == s0 + s1 + s2 + s3;
        assert e[..4] == e;
      }
  }

  /** A refused copy-chord call aborts the invocation before any clipboard access and
      before the paste chord; the clipboard keeps what it held. */
  lemma CopyFailureAbortsEarly(clip: Option<string>, host: Host)
    ensures Invocation(clip, host).outcome == SimFail(KeyC) <==> FirstRejected(host.rejected, CopyFirst).Some?
    ensures Invocation(clip, host).outcome == SimFail(KeyC) ==>
      var r := Invocation(clip, host);
      r.clipboard == clip && r.effects == ChordEffects(KeyC, host.rejected, CopyFirst) &&
      NoClipboardAccess(r.effects) && NoPaste(r.effects)
  {
  }

  /** A failed read, or an empty text read, ends the invocation with neither a write nor
      a paste; the empty case counts as success and the clipboard keeps the text read. */
  lemma ReadFailureOrEmptySkipsWrite(clip: Option<string>, host: Host)
    requires FirstRejected(host.rejected, CopyFirst).None?
    requires host.clipboardAtRead == None || host.clipboardAtRead == Some([])
    ensures Invocation(clip, host).outcome == if host.clipboardAtRead.None? then ReadFail else Ok
    ensures Invocation(clip, host).clipboard == host.clipboardAtRead
    ensures Invocation(clip, host).effects == ChordTrace(KeyC) + [Slept(SettleMs), ClipboardRead]
    ensures NoWrite(Invocation(clip, host).effects) && NoPaste(Invocation(clip, host).effects)
  {
  }

  /** A refused write ends the invocation with the write as its last call and no paste;
      the clipboard still holds the original, untransformed text. */
  lemma WriteFailureKeepsOriginal(clip: Option<string>, host: Host, text: string)
    requires FirstRejected(host.rejected, CopyFirst).None?
    requires host.clipboardAtRead == Some(text) && text != []
    requires !host.writeAccepted
    ensures Invocation(clip, host).outcome == WriteFail
    ensures Invocation(clip, host).clipboard == Some(text)
    ensures var effects := Invocation(clip, host).effects;
      effects == SuccessTrace(text)[..10] && effects[|effects| - 1] == ClipboardWritten(Flatten(text)) &&
      NoPaste(effects)
  {
  }

  /** The invocation succeeds exactly when the copy chord completes and the read yields
      text that is either empty or written back and followed by a completed paste chord;
      after a success on non-empty text the clipboard holds the transformed text and
      every call of the full trace was made, in order. */
  lemma SuccessPastesTransformed(clip: Option<string>, host: Host)
    ensures Invocation(clip, host).outcome == Ok <==>
      FirstRejected(host.rejected, CopyFirst).None? && host.clipboardAtRead.Some? &&
      (host.clipboardAtRead.value == [] ||
       (host.writeAccepted && FirstRejected(host.rejected, PasteFirst).None?))
    ensures Invocation(clip, host).outcome == Ok && host.clipboardAtRead.Some? && host.clipboardAtRead.value != [] ==>
      Invocation(clip, host).clipboard == Some(Flatten(host.clipboardAtRead.value)) &&
      Invocation(clip, host).effects == SuccessTrace(host.clipboardAtRead.value)
  {
  }

  /** Every invocation makes the calls of the full trace in order and stops early, never
      skipping or reordering a step; its first call is the copy chord's Ctrl press. */
  lemma EffectsFollowSuccessTrace(clip: Option<string>, host: Host, text: string)
    requires host.clipboardAtRead == Some(text) || host.clipboardAtRead == None
    ensures Invocation(clip, host).effects <= SuccessTrace(text)
    ensures |Invocation(clip, host).effects| > 0
    ensures Invocation(clip, host).effects[0] == Simulated(KeyPress(ControlLeft))
  {
  }

  /** Nothing follows the clipboard write unless the write was accepted, and the paste
      chord's letter press is attempted exactly when, in addition, the paste chord's
      first simulate call (the Ctrl press) is accepted. */
  lemma PasteOnlyAfterWrite(clip: Option<string>, host: Host)
    ensures var effects := Invocation(clip, host).effects;
      |effects| > 10 <==>
        FirstRejected(host.rejected, CopyFirst).None? && host.clipboardAtRead.Some? &&
        host.clipboardAtRead.value != [] && host.writeAccepted
    ensures var effects := Invocation(clip, host).effects;
      !NoPaste(effects) <==>
        FirstRejected(host.rejected, CopyFirst).None? && host.clipboardAtRead.Some? &&
        host.clipboardAtRead.value != [] && host.writeAccepted && PasteFirst !in host.rejected
  {
    var r := Invocation(clip, host);
    var v := ChordTrace(KeyV);
    if FirstRejected(host.rejected, CopyFirst).Some? {
      CopyFailureAbortsEarly(clip, host);
    } else if host.clipboardAtRead.Some? && host.clipboardAtRead.value != [] && host.writeAccepted {
      var text := host.clipboardAtRead.value;
      var w := ChordTrace(KeyC) + [Slept(SettleMs), ClipboardRead, ClipboardWritten(Flatten(text)), Slept(SettleMs)];
      var p := ChordEffects(KeyV, host.rejected, PasteFirst);
      assert r.effects == w + p;
      assert NoPaste(w);
      assert Simulated(KeyPress(KeyV)) in r.effects <==> Simulated(KeyPress(KeyV)) in p;
      if PasteFirst in host.rejected {
        assert p == v[..1];
      } else {
        assert p[2] == Simulated(KeyPress(KeyV));
      }
    }
  }

  /** Whatever happens, the clipboard ends holding what it held, what the read found, or
      the transform of what the read found, and any text written has no newline characters. */
  lemma ClipboardOnlyEverTransformed(clip: Option<string>, host: Host)
    ensures var r := Invocation(clip, host);
      r.clipboard == clip || r.clipboard == host.clipboardAtRead ||
      (host.clipboardAtRead.Some? && r.clipboard == Some(Flatten(host.clipboardAtRead.value)))
    ensures forall k :: 0 <= k < |Invocation(clip, host).effects| && Invocation(clip, host).effects[k].ClipboardWritten? ==>
      '\r' !in Invocation(clip, host).effects[k].text && '\n' !in Invocation(clip, host).effects[k].text
  {
  }

  /** The system's input simulator and clipboard, as seen by the pipeline: the clipboard's
      text and the log of every capability call made so far. */
  class Desktop {
    var clipboard: Option<string>
    var log: seq<Effect>

    constructor (initial: Option<string>)
      ensures clipboard == initial && log == []
    {
      clipboard := initial;
      log := [];
    }

    /** Hands one synthetic key event to the input simulator, which accepts it or not. */
    method Simulate(event: EventType, accepted: bool) returns (ok: bool)
      modifies this`log
      ensures ok == accepted
      ensures log == old(log) + [Simulated(event)]
    {
      log := log + [Simulated(event)];
      ok := accepted;
    }

    method Sleep(ms: nat)
      modifies this`log
      ensures log == old(log) + [Slept(ms)]
    {
      log := log + [Slept(ms)];
    }

    /** Reads the clipboard's text; `None` when it holds none. */
    method GetClipboardString() returns (text: Option<string>)
      modifies this`log
      ensures text == clipboard
      ensures log == old(log) + [ClipboardRead]
    {
      log := log + [ClipboardRead];
      text := clipboard;
    }

    /** Asks to replace the clipboard's text; a refused write leaves the clipboard as it was. */
    method SetClipboardString(text: string, accepted: bool) returns (ok: bool)
      modifies this
      ensures ok == accepted
      ensures clipboard == if accepted then Some(text) else old(clipboard)
      ensures log == old(log) + [ClipboardWritten(text)]
    {
      log := log + [ClipboardWritten(text)];
      if accepted {
        clipboard := Some(text);
      }
      ok := accepted;
    }

    /** Simulates Ctrl+`letter`: Ctrl press, letter press, letter release, Ctrl release,
        with a short wait between them, giving up at the first refused event. The
        simulate calls have ordinals `first` to `first + 3`. */
    method SendChord(letter: Key, rejected: set<nat>, first: nat) returns (ok: bool)
      modifies this`log
      ensures ok == FirstRejected(rejected, first).None?
      ensures log == old(log) + ChordEffects(letter, rejected, first)
    {
      var t := ChordTrace(letter);
      ok := Simulate(KeyPress(ControlLeft), first !in rejected);
      if !ok {
        assert log == old(log) + t[..1];
        return;
      }
      Sleep(KeyGapMs);
      ok := Simulate(KeyPress(letter), first + 1 !in rejected);
      if !ok {
        assert log == old(log) + t[..3];
        return;
      }
      Sleep(KeyGapMs);
      ok := Simulate(KeyRelease(letter), first + 2 !in rejected);
      if !ok {
        assert log == old(log) + t[..5];
        return;
      }
      Sleep(KeyGapMs);
      ok := Simulate(KeyRelease(ControlLeft), first + 3 !in rejected);
      assert log == old(log) + t;
    }

    /** One pipeline invocation against the capabilities' answers in `host`. */
    method RemoveNewlinesAndPaste(host: Host) returns (outcome: Outcome)
      modifies this
      ensures var r := Invocation(old(clipboard), host);
        outcome == r.outcome && clipboard == r.clipboard && log == old(log) + r.effects
    {
      ghost var before := log;
      var ok := SendChord(KeyC, host.rejected, CopyFirst);
      ghost var copy := ChordEffects(KeyC, host.rejected, CopyFirst);
      if !ok {
        outcome := SimFail(KeyC);
        return;
      }
      Sleep(SettleMs);
      // The foreground application answers the copy chord during the settle delay.
      clipboard := host.clipboardAtRead;
      var read := GetClipboardString();
      ghost var afterRead := copy + [Slept(SettleMs), ClipboardRead];
      assert log == before + afterRead;
      if read.None? {
        outcome := ReadFail;
        return;
      }
      var original := read.value;
      if original == [] {
        outcome := Ok;
        return;
      }
      var modified := Flatten(original);
      ok := SetClipboardString(modified, host.writeAccepted);
      ghost var afterWrite := afterRead + [ClipboardWritten(modified)];
      assert log == before + afterWrite;
      if !ok {
        outcome := WriteFail;
        return;
      }
      Sleep(SettleMs);
      ok := SendChord(KeyV, host.rejected, PasteFirst);
      if !ok {
        outcome := SimFail(KeyV);
        return;
      }
      outcome := Ok;
    }
  }
}
