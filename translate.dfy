/** The per-key step of the main loop of kbd.c: the Ctrl-A prefix mode, the
    dispatch on the key's class, and the ordered events that bracket the
    main key with Ctrl and with the Shift or Alt its keymap entry asks for. */
module Translate {
  import opened Uinput
  import opened Keymap
  import opened DeviceConfig

  /** The classes of decoded key libtermkey reports. */
  datatype KeyKind = Unicode | Function | Keysym | Mouse | Position | ModeReport | UnknownCsi

  /** A decoded `TermKeyKey`: its class, its code (the C union of codepoint,
      function-key number and key symbol, read as one integer) and its
      modifier bits. */
  datatype Key = Key(kind: KeyKind, code: int, modifiers: Mask)

  /** TERMKEY_KEYMOD_CTRL in libtermkey: bit 2, the value 4. */
  const KEYMOD_CTRL: Mask := {2}

  predicate HasCtrl(k: Key) { Meets(k.modifiers, KEYMOD_CTRL) }

  predicate IsA(c: int) { c == 'A' as int || c == 'a' as int }

  predicate IsQ(c: int) { c == 'q' as int || c == 'Q' as int }

  /** Mouse, cursor-position, mode and unknown-CSI reports: only logged. */
  predicate IsReport(k: Key)
  {
    k.kind.Mouse? || k.kind.Position? || k.kind.ModeReport? || k.kind.UnknownCsi?
  }

  /** The key that enters the prefix mode: a Unicode Ctrl+A or Ctrl+a. */
  predicate IsPrefixKey(k: Key)
  {
    k.kind == Unicode && HasCtrl(k) && IsA(k.code)
  }

  /** What the loop body does with one key: skip it (leaving the prefix flag
      at `next`), leave the loop, or send its events (with the prefix flag
      at `next`). */
  datatype Action = Skip(next: bool) | Quit | Emit(next: bool)

  /** The control flow of the loop body before any event is sent. Note that
      the prefix-mode test does not look at the class of the key while the
      entry test does. */
  function Decide(ctrla: bool, k: Key): Action
  {
    if IsReport(k) then Skip(ctrla)
    else if ctrla && !(HasCtrl(k) && IsA(k.code)) then
      if IsQ(k.code) then Quit else Skip(false)
    else if IsPrefixKey(k) then
      if ctrla then Emit(false) else Skip(true)
    else Emit(ctrla)
  }

  /** The table lookups of the emitting path are in bounds; the source does
      not check them. */
  predicate Indexable(k: Key, t: Tables)
  {
    match k.kind
    case Function => 0 <= k.code < |t.fnmap|
    case Keysym => 0 <= k.code < |t.keysymmap|
    case Unicode => 0 <= k.code
    case _ => true
  }

  /** The step is defined: if the key is sent, its lookups are in bounds. */
  predicate StepDefined(ctrla: bool, k: Key, t: Tables)
  {
    Decide(ctrla, k).Emit? ==> Indexable(k, t)
  }

  /** A printable key beyond the dense keymap, which the loop abandons after
      the Ctrl press. */
  predicate Dropped(k: Key)
  {
    k.kind == Unicode && k.code >= MAP_SIZE
  }

  /** The modifier key the keymap slot asks for; Shift wins over Alt. */
  function ModifierCodes(s: Slot, t: Tables): (r: seq<U16>)
    ensures |r| <= 1
  {
    if Meets(s.modifier, t.shift) then [KEY_LEFTSHIFT]
    else if Meets(s.modifier, t.alt) then [KEY_LEFTALT]
    else []
  }

  function CtrlCodes(k: Key): (r: seq<U16>)
    ensures |r| <= 1
  {
    if HasCtrl(k) then [KEY_LEFTCTRL] else []
  }

  /** The Ctrl press sent before the key, if it carries Ctrl. */
  function CtrlDown(k: Key): seq<Event>
  {
    if HasCtrl(k) then Press(KEY_LEFTCTRL) else []
  }

  /** The Ctrl release sent after the key, if it carries Ctrl. */
  function CtrlUp(k: Key): seq<Event>
  {
    if HasCtrl(k) then Release(KEY_LEFTCTRL) else []
  }

  /** The Shift or Alt press sent before a printable key. */
  function ModifierDown(s: Slot, t: Tables): seq<Event>
  {
    if Meets(s.modifier, t.shift) then Press(KEY_LEFTSHIFT)
    else if Meets(s.modifier, t.alt) then Press(KEY_LEFTALT)
    else []
  }

  /** The Shift or Alt release sent after a printable key. */
  function ModifierUp(s: Slot, t: Tables): seq<Event>
  {
    if Meets(s.modifier, t.shift) then Release(KEY_LEFTSHIFT)
    else if Meets(s.modifier, t.alt) then Release(KEY_LEFTALT)
    else []
  }

  /** The events of a printable key within the dense keymap, without Ctrl. */
  function PrintableEvents(s: Slot, t: Tables): seq<Event>
  {
    ModifierDown(s, t) + Press(s.kernelCode) + Release(s.kernelCode) + ModifierUp(s, t)
  }

  /** The events between the Ctrl press and the Ctrl release: the table
      code of a function or key-symbol key, or the keymap chord of a
      printable key within the dense keymap. */
  function MainEvents(k: Key, t: Tables, keymap: seq<Slot>): seq<Event>
    requires |keymap| == MAP_SIZE && Indexable(k, t) && !IsReport(k) && !Dropped(k)
  {
    if k.kind == Function then Press(t.fnmap[k.code]) + Release(t.fnmap[k.code])
    else if k.kind == Keysym then Press(t.keysymmap[k.code]) + Release(t.keysymmap[k.code])
    else PrintableEvents(keymap[k.code], t)
  }

  /** The events sent for a key that gets past the prefix handling, in the
      order the loop body sends them; a printable key beyond the keymap
      leaves by the `continue` after the Ctrl press. */
  function KeyEvents(k: Key, t: Tables, keymap: seq<Slot>): seq<Event>
    requires |keymap| == MAP_SIZE && Indexable(k, t) && !IsReport(k)
  {
    if Dropped(k) then CtrlDown(k)
    else CtrlDown(k) + MainEvents(k, t, keymap) + CtrlUp(k)
  }

  /** The main key and the Shift or Alt around it, outermost first. */
  function InnerBracket(k: Key, t: Tables, keymap: seq<Slot>): seq<U16>
    requires |keymap| == MAP_SIZE && Indexable(k, t) && !IsReport(k) && !Dropped(k)
  {
    if k.kind == Function then [t.fnmap[k.code]]
    else if k.kind == Keysym then [t.keysymmap[k.code]]
    else ModifierCodes(keymap[k.code], t) + [keymap[k.code].kernelCode]
  }

  /** The keys that bracket the main key, outermost first, main key last. */
  function Bracket(k: Key, t: Tables, keymap: seq<Slot>): seq<U16>
    requires |keymap| == MAP_SIZE && Indexable(k, t) && !IsReport(k) && !Dropped(k)
  {
    CtrlCodes(k) + InnerBracket(k, t, keymap)
  }

  /** Whether the loop ends, the prefix flag afterwards, and the events sent. */
  datatype Outcome = Outcome(quit: bool, ctrla: bool, events: seq<Event>)

  /** One pass of the loop body for a decoded key. */
  function StepSpec(ctrla: bool, k: Key, t: Tables, keymap: seq<Slot>): Outcome
    requires |keymap| == MAP_SIZE && StepDefined(ctrla, k, t)
  {
    match Decide(ctrla, k)
    case Quit => Outcome(true, ctrla, [])
    case Skip(next) => Outcome(false, next, [])
    case Emit(next) => Outcome(false, next, KeyEvents(k, t, keymap))
  }

  // ---------------------------------------------------------------------
  // The prefix mode

  /** A Unicode Ctrl+A outside the prefix mode enters it and sends nothing. */
  lemma PrefixEntry(k: Key, t: Tables, keymap: seq<Slot>)
    requires |keymap| == MAP_SIZE && IsPrefixKey(k)
    ensures StepDefined(false, k, t)
    ensures StepSpec(false, k, t, keymap) == Outcome(false, true, [])
  {
  }

  /** In the prefix mode any key whose code is q or Q ends the loop and sends
      nothing, whatever its class and modifiers (reports aside, which never
      reach the test). */
  lemma PrefixQuit(k: Key, t: Tables, keymap: seq<Slot>)
    requires |keymap| == MAP_SIZE && !IsReport(k) && IsQ(k.code)
    ensures StepDefined(true, k, t)
    ensures StepSpec(true, k, t, keymap) == Outcome(true, true, [])
  {
  }

  /** In the prefix mode any other key that is not Ctrl+A leaves the mode and
      is swallowed. */
  lemma PrefixCancel(k: Key, t: Tables, keymap: seq<Slot>)
    requires |keymap| == MAP_SIZE && !IsReport(k) && !IsQ(k.code) && !(HasCtrl(k) && IsA(k.code))
    ensures StepDefined(true, k, t)
    ensures StepSpec(true, k, t, keymap) == Outcome(false, false, [])
  {
  }

  /** A second Unicode Ctrl+A leaves the prefix mode and is not swallowed: it
      is sent like any Ctrl key, Ctrl held around the keymap chord of its
      codepoint. */
  lemma SecondPrefixKeySent(k: Key, t: Tables, keymap: seq<Slot>)
    requires |keymap| == MAP_SIZE && IsPrefixKey(k)
    ensures StepDefined(true, k, t)
    ensures var s := keymap[k.code];
            StepSpec(true, k, t, keymap) ==
            Outcome(false, false, Chord([KEY_LEFTCTRL] + ModifierCodes(s, t) + [s.kernelCode]))
  {
    KeyEventsNest(k, t, keymap);
    var s := keymap[k.code];
    assert Bracket(k, t, keymap) == [KEY_LEFTCTRL] + ModifierCodes(s, t) + [s.kernelCode];
  }

  /** A Function or Keysym key with Ctrl and code 'A' or 'a' passes the
      prefix-mode test but not the entry test: in the prefix mode it is sent
      and the mode stays on. */
  lemma NonUnicodeCtrlAKeepsPrefix(k: Key, t: Tables, keymap: seq<Slot>)
    requires |keymap| == MAP_SIZE && (k.kind == Function || k.kind == Keysym)
    requires HasCtrl(k) && IsA(k.code) && Indexable(k, t)
    ensures StepDefined(true, k, t)
    ensures var o := StepSpec(true, k, t, keymap);
            !o.quit && o.ctrla && o.events == KeyEvents(k, t, keymap) && |o.events| == 8
  {
  }

  /** Only a q or Q in the prefix mode ends the loop, and it sends nothing. */
  lemma QuitOnlyFromPrefix(ctrla: bool, k: Key, t: Tables, keymap: seq<Slot>)
    requires |keymap| == MAP_SIZE && StepDefined(ctrla, k, t)
    ensures StepSpec(ctrla, k, t, keymap).quit <==> ctrla && !IsReport(k) && IsQ(k.code)
    ensures StepSpec(ctrla, k, t, keymap).quit ==> StepSpec(ctrla, k, t, keymap).events == []
  {
  }

  /** Reports send nothing, never end the loop and leave the mode as it was. */
  lemma ReportsInert(ctrla: bool, k: Key, t: Tables, keymap: seq<Slot>)
    requires |keymap| == MAP_SIZE && IsReport(k)
    ensures StepDefined(ctrla, k, t)
    ensures StepSpec(ctrla, k, t, keymap) == Outcome(false, ctrla, [])
  {
  }

  // ---------------------------------------------------------------------
  // The events of one key

  /** The events of a key that is not dropped are exactly the chord of its
      bracket: Ctrl, then Shift or Alt, then the main key pressed in that
      order, each press reported, then released in the reverse order, each
      release reported. */
  lemma KeyEventsNest(k: Key, t: Tables, keymap: seq<Slot>)
    requires |keymap| == MAP_SIZE && Indexable(k, t) && !IsReport(k) && !Dropped(k)
    ensures KeyEvents(k, t, keymap) == Chord(Bracket(k, t, keymap))
  {
    var inner := InnerBracket(k, t, keymap);
    if k.kind == Function || k.kind == Keysym {
      ChordSingle(inner[0]);
      assert inner == [inner[0]];
    } else {
      PrintableNest(keymap[k.code], t);
    }
    ChordAround(CtrlCodes(k), inner);
    CtrlHalves(k);
  }

  lemma CtrlHalves(k: Key)
    ensures CtrlDown(k) == PressAll(CtrlCodes(k)) && CtrlUp(k) == ReleaseAll(CtrlCodes(k))
  {
    if HasCtrl(k) {
      SingleHalves(KEY_LEFTCTRL);
    }
  }

  lemma ModifierHalves(s: Slot, t: Tables)
    ensures ModifierDown(s, t) == PressAll(ModifierCodes(s, t))
    ensures ModifierUp(s, t) == ReleaseAll(ModifierCodes(s, t))
  {
    var m := ModifierCodes(s, t);
    if m != [] {
      SingleHalves(m[0]);
    }
  }

  /** A printable key is the chord of its modifier (if any) and its code. */
  lemma PrintableNest(s: Slot, t: Tables)
    ensures PrintableEvents(s, t) == Chord(ModifierCodes(s, t) + [s.kernelCode])
  {
    ChordSingle(s.kernelCode);
    ChordAround(ModifierCodes(s, t), [s.kernelCode]);
    ModifierHalves(s, t);
  }

  /** For a key that is not dropped, once the press half has been reported
      the whole bracket is held at once; after the step none of it is, and
      keys outside the bracket are untouched. */
  lemma KeyEventsHeld(k: Key, t: Tables, keymap: seq<Slot>, held: set<U16>)
    requires |keymap| == MAP_SIZE && Indexable(k, t) && !IsReport(k) && !Dropped(k)
    ensures HeldAfter(held, PressAll(Bracket(k, t, keymap))) == held + Elems(Bracket(k, t, keymap))
    ensures HeldAfter(held, KeyEvents(k, t, keymap)) == held - Elems(Bracket(k, t, keymap))
  {
    KeyEventsNest(k, t, keymap);
    ChordHeld(held, Bracket(k, t, keymap));
  }

  /** Function and key-symbol keys get the Ctrl bracket only, never Shift or
      Alt: the table code pressed and released inside an optional Ctrl. */
  lemma TableKeyEvents(k: Key, t: Tables, keymap: seq<Slot>)
    requires |keymap| == MAP_SIZE && Indexable(k, t) && (k.kind == Function || k.kind == Keysym)
    ensures var code := if k.kind == Function then t.fnmap[k.code] else t.keysymmap[k.code];
            KeyEvents(k, t, keymap) == Chord(CtrlCodes(k) + [code])
  {
    KeyEventsNest(k, t, keymap);
  }

  /** Shift takes precedence over Alt; with distinct single-bit flags, a
      slot carrying exactly one of them gets that one. */
  lemma ModifierChoice(t: Tables, c: U16)
    requires FlagsWellFormed(t)
    ensures ModifierCodes(Slot(t.shift, c), t) == [KEY_LEFTSHIFT]
    ensures ModifierCodes(Slot(t.alt, c), t) == [KEY_LEFTALT]
    ensures ModifierCodes(Slot(t.shift + t.alt, c), t) == [KEY_LEFTSHIFT]
    ensures ModifierCodes(Slot({}, c), t) == []
  {
    var sh :| sh in t.shift;
    var al :| al in t.alt;
    assert sh in t.shift * t.shift && al in t.alt * t.alt;
    assert sh in (t.shift + t.alt) * t.shift;
  }

  /** In the normal mode a printable key beyond the dense keymap sends no
      modifier or main key and does not end the loop; with Ctrl, the Ctrl
      press is sent and never released, so Ctrl stays held. */
  lemma DroppedKeyEvents(k: Key, t: Tables, keymap: seq<Slot>, held: set<U16>)
    requires |keymap| == MAP_SIZE && Dropped(k)
    ensures StepDefined(false, k, t)
    ensures var o := StepSpec(false, k, t, keymap);
            !o.quit && !o.ctrla &&
            o.events == (if HasCtrl(k) then Press(KEY_LEFTCTRL) else []) &&
            HeldAfter(held, o.events) == if HasCtrl(k) then held + {KEY_LEFTCTRL} else held
  {
    if HasCtrl(k) {
      PressHeld(held, KEY_LEFTCTRL);
    }
  }

  /** An unshifted letter in the normal mode: its key pressed and released,
      each change reported, and no modifier. */
  lemma PlainLetter(k: Key, t: Tables, keymap: seq<Slot>)
    requires |keymap| == MAP_SIZE && k.kind == Unicode && 0 <= k.code < MAP_SIZE && !HasCtrl(k)
    requires !Meets(keymap[k.code].modifier, t.shift) && !Meets(keymap[k.code].modifier, t.alt)
    ensures StepDefined(false, k, t)
    ensures var c := keymap[k.code].kernelCode;
            StepSpec(false, k, t, keymap) ==
            Outcome(false, false, [Event(EV_KEY, c, 1), Sync, Event(EV_KEY, c, 0), Sync])
  {
  }

  /** A letter whose slot asks for Shift, in the normal mode: eight events,
      Shift around the letter's key, each change reported. */
  lemma ShiftedLetter(k: Key, t: Tables, keymap: seq<Slot>)
    requires |keymap| == MAP_SIZE && k.kind == Unicode && 0 <= k.code < MAP_SIZE && !HasCtrl(k)
    requires Meets(keymap[k.code].modifier, t.shift)
    ensures StepDefined(false, k, t)
    ensures var c := keymap[k.code].kernelCode;
            StepSpec(false, k, t, keymap) ==
            Outcome(false, false, [Event(EV_KEY, KEY_LEFTSHIFT, 1), Sync, Event(EV_KEY, c, 1), Sync,
                                   Event(EV_KEY, c, 0), Sync, Event(EV_KEY, KEY_LEFTSHIFT, 0), Sync])
  {
  }

  /** Every key event a step sends is followed by its report. */
  lemma StepSynced(ctrla: bool, k: Key, t: Tables, keymap: seq<Slot>)
    requires |keymap| == MAP_SIZE && StepDefined(ctrla, k, t)
    ensures Synced(StepSpec(ctrla, k, t, keymap).events)
  {
    if Decide(ctrla, k).Emit? {
      if Dropped(k) {
        if HasCtrl(k) {
          assert Press(KEY_LEFTCTRL)[2..] == [];
        }
      } else {
        KeyEventsNest(k, t, keymap);
        ChordSynced(Bracket(k, t, keymap));
      }
    }
  }

  /** A step can leave held only what was held before, plus Ctrl. */
  lemma StepHeld(ctrla: bool, k: Key, t: Tables, keymap: seq<Slot>, held: set<U16>)
    requires |keymap| == MAP_SIZE && StepDefined(ctrla, k, t)
    ensures HeldAfter(held, StepSpec(ctrla, k, t, keymap).events) <= held + {KEY_LEFTCTRL}
  {
    if Decide(ctrla, k).Emit? {
      if Dropped(k) {
        if HasCtrl(k) {
          PressHeld(held, KEY_LEFTCTRL);
        }
      } else {
        KeyEventsHeld(k, t, keymap, held);
      }
    }
  }

  /** Every code a step sends is one the device declared, provided that a
      printable key in range has a `kmap` entry and the dense keymap was
      filled from `kmap`. */
  lemma StepCodesDeclared(ctrla: bool, k: Key, t: Tables, base: seq<Slot>)
    requires |base| == MAP_SIZE && UsercodesBelow(t.kmap, MAP_SIZE) && StepDefined(ctrla, k, t)
    requires k.kind == Unicode && 0 <= k.code < MAP_SIZE ==> Mapped(t.kmap, k.code)
    ensures forall e :: e in StepSpec(ctrla, k, t, Filled(t.kmap, base)).events && e.evType == EV_KEY ==>
              e.code in DeclaredCodes(t)
  {
    var keymap := Filled(t.kmap, base);
    ModifiersDeclared(t);
    if Decide(ctrla, k).Emit? && !Dropped(k) {
      BracketDeclared(k, t, base);
      var b := Bracket(k, t, keymap);
      KeyEventsNest(k, t, keymap);
      ChordCodes(b);
    }
  }

  /** The kernel code in the slot of a codepoint that has a `kmap` entry is
      declared. */
  lemma SlotDeclared(t: Tables, base: seq<Slot>, u: int)
    requires UsercodesBelow(t.kmap, |base|) && 0 <= u < |base| && Mapped(t.kmap, u)
    ensures Filled(t.kmap, base)[u].kernelCode in DeclaredCodes(t)
  {
    LastEntryExists(t.kmap, u);
    var i :| LastEntryFor(t.kmap, u, i);
    FilledLastWins(t.kmap, base, u, i);
    KmapCodeDeclared(t, i);
  }

  /** The bracket of a key consists of declared codes. */
  lemma BracketDeclared(k: Key, t: Tables, base: seq<Slot>)
    requires |base| == MAP_SIZE && UsercodesBelow(t.kmap, MAP_SIZE)
    requires Indexable(k, t) && !IsReport(k) && !Dropped(k)
    requires k.kind == Unicode ==> Mapped(t.kmap, k.code)
    ensures forall c :: c in Bracket(k, t, Filled(t.kmap, base)) ==> c in DeclaredCodes(t)
  {
    var keymap := Filled(t.kmap, base);
    ModifiersDeclared(t);
    var b := Bracket(k, t, keymap);
    var main: U16;
    var mods: seq<U16> := [];
    if k.kind == Function {
      main := t.fnmap[k.code];
      FnCodeDeclared(t, k.code);
    } else if k.kind == Keysym {
      main := t.keysymmap[k.code];
      KeysymCodeDeclared(t, k.code);
    } else {
      main := keymap[k.code].kernelCode;
      mods := ModifierCodes(keymap[k.code], t);
      SlotDeclared(t, base, k.code);
    }
    assert b == CtrlCodes(k) + mods + [main];
    forall c | c in b ensures c in DeclaredCodes(t) {
      if c in CtrlCodes(k) {
        assert c == KEY_LEFTCTRL;
      } else if c in mods {
        assert c == KEY_LEFTSHIFT || c == KEY_LEFTALT;
      } else {
        assert c == main;
      }
    }
  }

  /** A proof step for `Translator.SendKey`: associativity of sequence
      concatenation, kept as a lemma so that the solver does not search for it. */
  lemma LogGrowth(start: seq<Event>, a: seq<Event>, b: seq<Event>, c: seq<Event>)
    ensures start + a + b + c == start + (a + b + c)
  {
  }

  /** The state the source keeps for the loop: the dense keymap, the tables,
      the device and the Ctrl-A prefix flag. */
  class Translator {
    const tables: Tables
    const keymap: array<Slot>
    const dev: Device
    var ctrla: bool

    constructor (tables: Tables, keymap: array<Slot>, dev: Device)
      ensures this.tables == tables && this.keymap == keymap && this.dev == dev && !ctrla
    {
      this.tables, this.keymap, this.dev := tables, keymap, dev;
      ctrla := false;
    }

    /** One `send_event` of a key change followed by one of a report. */
    method SendPress(code: U16)
      modifies dev`log
      ensures dev.log == old(dev.log) + Press(code)
    {
      dev.SendEvent(EV_KEY, code, 1);
      dev.SendEvent(EV_SYN, SYN_REPORT, 0);
    }

    method SendRelease(code: U16)
      modifies dev`log
      ensures dev.log == old(dev.log) + Release(code)
    {
      dev.SendEvent(EV_KEY, code, 0);
      dev.SendEvent(EV_SYN, SYN_REPORT, 0);
    }

    /** The printable branch after the range test: the slot's Shift or Alt
        press, the main key, the matching Shift or Alt release. */
    method SendPrintable(mp: Slot)
      modifies dev`log
      ensures dev.log == old(dev.log) + PrintableEvents(mp, tables)
    {
      if Meets(mp.modifier, tables.shift) {
        SendPress(KEY_LEFTSHIFT);
      } else if Meets(mp.modifier, tables.alt) {
        SendPress(KEY_LEFTALT);
      }
      SendPress(mp.kernelCode);
      SendRelease(mp.kernelCode);
      if Meets(mp.modifier, tables.shift) {
        SendRelease(KEY_LEFTSHIFT);
      } else if Meets(mp.modifier, tables.alt) {
        SendRelease(KEY_LEFTALT);
      }
    }

    /** The dispatch on the key's class; `abandoned` is the `continue`
        taken by a printable key beyond the dense keymap. */
    method SendMain(k: Key) returns (abandoned: bool)
      requires keymap.Length == MAP_SIZE && Indexable(k, tables) && !IsReport(k)
      modifies dev`log
      ensures abandoned == Dropped(k)
      ensures !abandoned ==> dev.log == old(dev.log) + MainEvents(k, tables, old(keymap[..]))
      ensures abandoned ==> dev.log == old(dev.log)
    {
      abandoned := false;
      if k.kind == Function {
        SendPress(tables.fnmap[k.code]);
        SendRelease(tables.fnmap[k.code]);
      } else if k.kind == Keysym {
        SendPress(tables.keysymmap[k.code]);
        SendRelease(tables.keysymmap[k.code]);
      } else {
        if k.code >= MAP_SIZE {
          abandoned := true;
          return;
        }
        var mp := keymap[k.code];
        SendPrintable(mp);
      }
    }

    /** The Ctrl press that opens the bracket of a key carrying Ctrl. */
    method SendCtrlDown(k: Key)
      modifies dev`log
      ensures dev.log == old(dev.log) + CtrlDown(k)
    {
      if HasCtrl(k) {
        SendPress(KEY_LEFTCTRL);
      }
    }

    /** The Ctrl release that closes it. */
    method SendCtrlUp(k: Key)
      modifies dev`log
      ensures dev.log == old(dev.log) + CtrlUp(k)
    {
      if HasCtrl(k) {
        SendRelease(KEY_LEFTCTRL);
      }
    }

    /** The sending half of the loop body: Ctrl press, dispatch on the
        class, Ctrl release. */
    method SendKey(k: Key)
      requires keymap.Length == MAP_SIZE && Indexable(k, tables) && !IsReport(k)
      modifies dev`log
      ensures dev.log == old(dev.log) + KeyEvents(k, tables, old(keymap[..]))
    {
      ghost var start, km := dev.log, keymap[..];
      SendCtrlDown(k);
      assert keymap[..] == km;
      var abandoned := SendMain(k);
      if abandoned {
        return;
      }
      SendCtrlUp(k);
      LogGrowth(start, CtrlDown(k), MainEvents(k, tables, km), CtrlUp(k));
    }

    /** The loop body for a decoded key (the report classes included):
        `quit` is the `break` of the prefix mode. */
    method Step(k: Key) returns (quit: bool)
      requires keymap.Length == MAP_SIZE && StepDefined(ctrla, k, tables)
      modifies this, dev`log
      ensures var o := StepSpec(old(ctrla), k, tables, old(keymap[..]));
              quit == o.quit && ctrla == o.ctrla && dev.log == old(dev.log) + o.events
    {
      quit := false;
      if IsReport(k) {
        return;
      }
      if ctrla && !(HasCtrl(k) && IsA(k.code)) {
        if IsQ(k.code) {
          quit := true;
          return;
        } else {
          ctrla := false;
          return;
        }
      }
      if k.kind == Unicode && HasCtrl(k) && IsA(k.code) {
        if ctrla {
          ctrla := false;
        } else {
          ctrla := true;
          return;
        }
      }
      SendKey(k);
    }
  }
}
