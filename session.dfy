/** The main loop of kbd.c over the results of `termkey_waitkey`, and the
    start-up sequence of `main` around it. */
module Session {
  import opened Uinput
  import opened Keymap
  import opened DeviceConfig
  import opened Translate

  /** EINTR on Linux. */
  const EINTR := 4

  /** One result of `termkey_waitkey`: a decoded key, the end of input, an
      error together with the errno it left, or any other result, which the
      loop body ignores. */
  datatype WaitResult = KeyResult(key: Key) | Eof | Error(errno: int) | Other

  /** Why the loop ended: end of input, a failed read other than an
      interrupted one, or the prefix-mode quit key. `Waiting` means that the
      results given to the model ran out while the loop would still block
      for the next one. */
  datatype Stop = AtEof | AtError(errno: int) | AtQuit | Waiting

  datatype RunOutcome = RunOutcome(stop: Stop, ctrla: bool, events: seq<Event>)

  /** The prefix flag after a key that does not end the loop. */
  function NextCtrla(ctrla: bool, k: Key): bool
  {
    match Decide(ctrla, k)
    case Quit => ctrla
    case Skip(next) => next
    case Emit(next) => next
  }

  /** Every key the loop sends, starting in prefix state `ctrla`, has its
      table lookups in bounds. */
  predicate RunDefined(ctrla: bool, inputs: seq<WaitResult>, t: Tables)
    decreases |inputs|
  {
    if inputs == [] then true
    else match inputs[0]
      case Eof => true
      case Error(e) => e != EINTR || RunDefined(ctrla, inputs[1..], t)
      case Other => RunDefined(ctrla, inputs[1..], t)
      case KeyResult(k) =>
        StepDefined(ctrla, k, t) && (Decide(ctrla, k).Quit? || RunDefined(NextCtrla(ctrla, k), inputs[1..], t))
  }

  /** The loop over a sequence of results. */
  function RunSpec(ctrla: bool, inputs: seq<WaitResult>, t: Tables, keymap: seq<Slot>): RunOutcome
    requires |keymap| == MAP_SIZE && RunDefined(ctrla, inputs, t)
    decreases |inputs|
  {
    if inputs == [] then RunOutcome(Waiting, ctrla, [])
    else match inputs[0]
      case Eof => RunOutcome(AtEof, ctrla, [])
      case Error(e) =>
        if e != EINTR then RunOutcome(AtError(e), ctrla, [])
        else RunSpec(ctrla, inputs[1..], t, keymap)
      case Other => RunSpec(ctrla, inputs[1..], t, keymap)
      case KeyResult(k) =>
        var o := StepSpec(ctrla, k, t, keymap);
        if o.quit then RunOutcome(AtQuit, o.ctrla, o.events)
        else
          var r := RunSpec(o.ctrla, inputs[1..], t, keymap);
          RunOutcome(r.stop, r.ctrla, o.events + r.events)
  }

  /** The `while` loop of `main`. */
  method Run(tr: Translator, inputs: seq<WaitResult>) returns (stop: Stop)
    requires tr.keymap.Length == MAP_SIZE && RunDefined(tr.ctrla, inputs, tr.tables)
    modifies tr, tr.dev`log
    ensures var r := RunSpec(old(tr.ctrla), inputs, tr.tables, tr.keymap[..]);
            stop == r.stop && tr.ctrla == r.ctrla && tr.dev.log == old(tr.dev.log) + r.events
  {
    ghost var t, km := tr.tables, tr.keymap[..];
    ghost var total := RunSpec(tr.ctrla, inputs, t, km);
    var pending := inputs;
    while pending != []
      invariant tr.keymap[..] == km
      invariant RunDefined(tr.ctrla, pending, t)
      invariant RunSpec(tr.ctrla, pending, t, km).stop == total.stop
      invariant RunSpec(tr.ctrla, pending, t, km).ctrla == total.ctrla
      invariant tr.dev.log + RunSpec(tr.ctrla, pending, t, km).events == old(tr.dev.log) + total.events
      decreases |pending|
    {
      var w, rest := pending[0], pending[1..];
      assert pending == [w] + rest;
      match w {
        case Eof =>
          RunSpecEnd(tr.ctrla, w, rest, t, km);
          stop := AtEof;
          return;
        case Error(e) =>
          if e != EINTR {
            RunSpecEnd(tr.ctrla, w, rest, t, km);
            stop := AtError(e);
            return;
          }
          RunSpecSkip(tr.ctrla, w, rest, t, km);
        case Other =>
          RunSpecSkip(tr.ctrla, w, rest, t, km);
        case KeyResult(k) =>
          ghost var before, c0 := tr.dev.log, tr.ctrla;
          RunSpecStep(c0, k, rest, t, km);
          ghost var o := StepSpec(c0, k, t, km);
          var quit := tr.Step(k);
          assert quit == o.quit && tr.ctrla == o.ctrla && tr.dev.log == before + o.events;
          if quit {
            stop := AtQuit;
            return;
          }
          RunContinue(c0, k, rest, t, km, before, old(tr.dev.log), total);
      }
      pending := rest;
    }
    stop := Waiting;
  }

  /** The end of input, or a failed read other than an interrupted one,
      ends the loop at once and sends nothing. */
  lemma RunSpecEnd(ctrla: bool, w: WaitResult, rest: seq<WaitResult>, t: Tables, keymap: seq<Slot>)
    requires |keymap| == MAP_SIZE && (w.Eof? || (w.Error? && w.errno != EINTR))
    ensures RunDefined(ctrla, [w] + rest, t)
    ensures RunSpec(ctrla, [w] + rest, t, keymap) == RunOutcome(if w.Eof? then AtEof else AtError(w.errno), ctrla, [])
  {
  }

  /** An ignored result or an interrupted read leaves the rest of the loop
      as it was. */
  lemma RunSpecSkip(ctrla: bool, w: WaitResult, rest: seq<WaitResult>, t: Tables, keymap: seq<Slot>)
    requires |keymap| == MAP_SIZE && (w.Other? || w == Error(EINTR))
    requires RunDefined(ctrla, [w] + rest, t)
    ensures RunDefined(ctrla, rest, t)
    ensures RunSpec(ctrla, [w] + rest, t, keymap) == RunSpec(ctrla, rest, t, keymap)
  {
    assert ([w] + rest)[1..] == rest;
  }

  /** A key result runs one step; unless the step quits, the loop goes on
      from the step's prefix flag and its events come first. */
  lemma RunSpecStep(ctrla: bool, k: Key, rest: seq<WaitResult>, t: Tables, keymap: seq<Slot>)
    requires |keymap| == MAP_SIZE && RunDefined(ctrla, [KeyResult(k)] + rest, t)
    ensures StepDefined(ctrla, k, t)
    ensures var o := StepSpec(ctrla, k, t, keymap);
            if o.quit then RunSpec(ctrla, [KeyResult(k)] + rest, t, keymap) == RunOutcome(AtQuit, o.ctrla, o.events)
            else
              RunDefined(o.ctrla, rest, t) &&
              var r := RunSpec(o.ctrla, rest, t, keymap);
              RunSpec(ctrla, [KeyResult(k)] + rest, t, keymap) == RunOutcome(r.stop, r.ctrla, o.events + r.events)
  {
    assert ([KeyResult(k)] + rest)[1..] == rest;
  }

  /** The loop invariant of `Run` carries over a key that does not end the
      loop: what is left to run after it, from the step's prefix flag, ends
      as the whole run does, and the step's events come first. */
  lemma RunContinue(ctrla: bool, k: Key, rest: seq<WaitResult>, t: Tables, keymap: seq<Slot>,
                    sent: seq<Event>, start: seq<Event>, total: RunOutcome)
    requires |keymap| == MAP_SIZE && RunDefined(ctrla, [KeyResult(k)] + rest, t)
    requires StepDefined(ctrla, k, t) && !StepSpec(ctrla, k, t, keymap).quit
    requires var r := RunSpec(ctrla, [KeyResult(k)] + rest, t, keymap);
             r.stop == total.stop && r.ctrla == total.ctrla && sent + r.events == start + total.events
    ensures var o := StepSpec(ctrla, k, t, keymap);
            RunDefined(o.ctrla, rest, t) &&
            var r := RunSpec(o.ctrla, rest, t, keymap);
            r.stop == total.stop && r.ctrla == total.ctrla && (sent + o.events) + r.events == start + total.events
  {
    RunSpecStep(ctrla, k, rest, t, keymap);
    var o := StepSpec(ctrla, k, t, keymap);
    var r := RunSpec(o.ctrla, rest, t, keymap);
    assert (sent + o.events) + r.events == sent + (o.events + r.events);
  }

  /** `main` from `fill_keymap` on: fill the uninitialised keymap array,
      configure and create the device, then run the loop with the prefix
      flag cleared. */
  method RunSession(t: Tables, keymap: array<Slot>, inputs: seq<WaitResult>) returns (stop: Stop, dev: Device)
    requires keymap.Length == MAP_SIZE && UsercodesBelow(t.kmap, MAP_SIZE)
    requires RunDefined(false, inputs, t)
    modifies keymap
    ensures fresh(dev) && dev.created
    ensures dev.evBits == [EV_KEY] && dev.keyBits == DeclaredCodes(t)
    ensures keymap[..] == Filled(t.kmap, old(keymap[..]))
    ensures var r := RunSpec(false, inputs, t, keymap[..]);
            stop == r.stop && dev.log == r.events
  {
    FillKeymap(keymap, t.kmap);
    dev := new Device.Open();
    Configure(dev, t);
    var tr := new Translator(t, keymap, dev);
    stop := Run(tr, inputs);
  }

  // ---------------------------------------------------------------------
  // Properties of the loop

  /** Every key event the loop sends is immediately followed by a report. */
  lemma {:induction false} RunSynced(ctrla: bool, inputs: seq<WaitResult>, t: Tables, keymap: seq<Slot>)
    requires |keymap| == MAP_SIZE && RunDefined(ctrla, inputs, t)
    ensures Synced(RunSpec(ctrla, inputs, t, keymap).events)
    decreases |inputs|
  {
    if inputs != [] {
      match inputs[0]
      case Eof =>
      case Error(e) =>
        if e == EINTR {
          RunSynced(ctrla, inputs[1..], t, keymap);
        }
      case Other =>
        RunSynced(ctrla, inputs[1..], t, keymap);
      case KeyResult(k) =>
        var o := StepSpec(ctrla, k, t, keymap);
        StepSynced(ctrla, k, t, keymap);
        if !o.quit {
          RunSynced(o.ctrla, inputs[1..], t, keymap);
          SyncedAppend(o.events, RunSpec(o.ctrla, inputs[1..], t, keymap).events);
        }
    }
  }

  /** The only key the loop can leave held is the left Ctrl, through a
      printable key with Ctrl beyond the dense keymap. */
  lemma {:induction false} RunHeld(ctrla: bool, inputs: seq<WaitResult>, t: Tables, keymap: seq<Slot>, held: set<U16>)
    requires |keymap| == MAP_SIZE && RunDefined(ctrla, inputs, t)
    ensures HeldAfter(held, RunSpec(ctrla, inputs, t, keymap).events) <= held + {KEY_LEFTCTRL}
    decreases |inputs|
  {
    if inputs != [] {
      match inputs[0]
      case Eof =>
      case Error(e) =>
        if e == EINTR {
          RunHeld(ctrla, inputs[1..], t, keymap, held);
        }
      case Other =>
        RunHeld(ctrla, inputs[1..], t, keymap, held);
      case KeyResult(k) =>
        var o := StepSpec(ctrla, k, t, keymap);
        StepHeld(ctrla, k, t, keymap, held);
        if !o.quit {
          var mid := HeldAfter(held, o.events);
          var r := RunSpec(o.ctrla, inputs[1..], t, keymap);
          HeldAfterAppend(held, o.events, r.events);
          RunHeld(o.ctrla, inputs[1..], t, keymap, mid);
        }
    }
  }

  /** Every printable key in the input that lies within the dense keymap
      has a `kmap` entry. */
  predicate PrintablesMapped(inputs: seq<WaitResult>, t: Tables)
  {
    forall j ::
      (0 <= j < |inputs| && inputs[j].KeyResult? && inputs[j].key.kind == Unicode &&
       0 <= inputs[j].key.code < MAP_SIZE) ==> Mapped(t.kmap, inputs[j].key.code)
  }

  /** Every code the loop sends was declared by `configure_dev`, when the
      keymap was filled from `kmap` and the printable keys typed have
      entries in it. */
  lemma {:induction false} RunCodesDeclared(ctrla: bool, inputs: seq<WaitResult>, t: Tables, base: seq<Slot>)
    requires |base| == MAP_SIZE && UsercodesBelow(t.kmap, MAP_SIZE)
    requires RunDefined(ctrla, inputs, t) && PrintablesMapped(inputs, t)
    ensures forall e :: e in RunSpec(ctrla, inputs, t, Filled(t.kmap, base)).events && e.evType == EV_KEY ==>
              e.code in DeclaredCodes(t)
    decreases |inputs|
  {
    var keymap := Filled(t.kmap, base);
    if inputs != [] {
      assert PrintablesMapped(inputs[1..], t) by {
        forall j | 0 <= j < |inputs[1..]| ensures inputs[1..][j] == inputs[j + 1] { }
      }
      match inputs[0]
      case Eof =>
      case Error(e) =>
        if e == EINTR {
          RunCodesDeclared(ctrla, inputs[1..], t, base);
        }
      case Other =>
        RunCodesDeclared(ctrla, inputs[1..], t, base);
      case KeyResult(k) =>
        var o := StepSpec(ctrla, k, t, keymap);
        StepCodesDeclared(ctrla, k, t, base);
        if !o.quit {
          RunCodesDeclared(o.ctrla, inputs[1..], t, base);
        }
    }
  }

  /** The loop ends only on the end of input, on an error other than EINTR,
      or on a q or Q in the prefix mode; each is present in the input. */
  lemma {:induction false} RunStopReason(ctrla: bool, inputs: seq<WaitResult>, t: Tables, keymap: seq<Slot>)
    requires |keymap| == MAP_SIZE && RunDefined(ctrla, inputs, t)
    ensures var r := RunSpec(ctrla, inputs, t, keymap);
            (r.stop == AtEof ==> Eof in inputs) &&
            (r.stop.AtError? ==> r.stop.errno != EINTR && Error(r.stop.errno) in inputs) &&
            (r.stop == AtQuit ==> exists j :: 0 <= j < |inputs| && inputs[j].KeyResult? && IsQ(inputs[j].key.code)) &&
            (r.stop == Waiting ==> Eof !in inputs)
    decreases |inputs|
  {
    if inputs != [] {
      assert inputs == [inputs[0]] + inputs[1..];
      match inputs[0]
      case Eof =>
      case Error(e) =>
        if e == EINTR {
          RunStopReason(ctrla, inputs[1..], t, keymap);
        }
      case Other =>
        RunStopReason(ctrla, inputs[1..], t, keymap);
      case KeyResult(k) =>
        var o := StepSpec(ctrla, k, t, keymap);
        if o.quit {
          QuitOnlyFromPrefix(ctrla, k, t, keymap);
        } else {
          RunStopReason(o.ctrla, inputs[1..], t, keymap);
          var r := RunSpec(o.ctrla, inputs[1..], t, keymap);
          if r.stop == AtQuit {
            var j :| 0 <= j < |inputs[1..]| && inputs[1..][j].KeyResult? && IsQ(inputs[1..][j].key.code);
            assert inputs[j + 1] == inputs[1..][j];
          }
        }
    }
  }

  /** An interrupted read is reported and the loop waits again. */
  lemma InterruptRetried(ctrla: bool, rest: seq<WaitResult>, t: Tables, keymap: seq<Slot>)
    requires |keymap| == MAP_SIZE && RunDefined(ctrla, rest, t)
    ensures RunDefined(ctrla, [Error(EINTR)] + rest, t)
    ensures RunSpec(ctrla, [Error(EINTR)] + rest, t, keymap) == RunSpec(ctrla, rest, t, keymap)
  {
    assert ([Error(EINTR)] + rest)[1..] == rest;
  }

  /** Ctrl+A followed by q sends nothing and ends the loop. */
  lemma PrefixThenQuit(a: Key, q: Key, rest: seq<WaitResult>, t: Tables, keymap: seq<Slot>)
    requires |keymap| == MAP_SIZE && IsPrefixKey(a) && !IsReport(q) && IsQ(q.code)
    ensures RunDefined(false, [KeyResult(a), KeyResult(q)] + rest, t)
    ensures RunSpec(false, [KeyResult(a), KeyResult(q)] + rest, t, keymap) == RunOutcome(AtQuit, true, [])
  {
    var inputs := [KeyResult(a), KeyResult(q)] + rest;
    assert inputs[1..] == [KeyResult(q)] + rest;
    assert inputs[1..][1..] == rest;
  }

  /** Ctrl+A twice leaves the prefix mode and sends the second Ctrl+A as a
      Ctrl key (Ctrl around the keymap chord of 'A' or 'a'); the loop goes
      on with the rest of the input in the normal mode. */
  lemma PrefixTwice(a: Key, rest: seq<WaitResult>, t: Tables, keymap: seq<Slot>)
    requires |keymap| == MAP_SIZE && IsPrefixKey(a) && RunDefined(false, rest, t)
    ensures RunDefined(false, [KeyResult(a), KeyResult(a)] + rest, t)
    ensures var s := keymap[a.code];
            var r := RunSpec(false, rest, t, keymap);
            RunSpec(false, [KeyResult(a), KeyResult(a)] + rest, t, keymap) ==
            RunOutcome(r.stop, r.ctrla, Chord([KEY_LEFTCTRL] + ModifierCodes(s, t) + [s.kernelCode]) + r.events)
  {
    var inputs := [KeyResult(a), KeyResult(a)] + rest;
    assert inputs[1..] == [KeyResult(a)] + rest;
    assert inputs[1..][1..] == rest;
    SecondPrefixKeySent(a, t, keymap);
  }

  /** A printable key beyond the dense keymap without Ctrl, in the normal
      mode, sends nothing and does not end the loop. */
  lemma OutOfRangeIgnored(k: Key, rest: seq<WaitResult>, t: Tables, keymap: seq<Slot>)
    requires |keymap| == MAP_SIZE && Dropped(k) && !HasCtrl(k) && RunDefined(false, rest, t)
    ensures RunDefined(false, [KeyResult(k)] + rest, t)
    ensures RunSpec(false, [KeyResult(k)] + rest, t, keymap) == RunSpec(false, rest, t, keymap)
  {
    assert ([KeyResult(k)] + rest)[1..] == rest;
  }
}
