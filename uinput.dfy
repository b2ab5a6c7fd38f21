/** The Linux uinput side of the keyboard: the event triples written to the
    virtual device, the key codes it declares before creation, and the
    theory of "chords" (press every key of a bracket, then release them in
    the opposite order) that the translator's output is proved against. */
module Uinput {

  /** `__u16`, the width of an input event's type and code. */
  type U16 = x: int | 0 <= x < 0x1_0000

  /** `__s32`, the width of an input event's value. */
  type I32 = x: int | -0x8000_0000 <= x < 0x8000_0000

  // Event types, the sync code and the three modifier keys, as numbered in
  // the kernel header <linux/input-event-codes.h>.
  const EV_SYN: U16 := 0
  const EV_KEY: U16 := 1
  const SYN_REPORT: U16 := 0
  const KEY_LEFTCTRL: U16 := 29
  const KEY_LEFTSHIFT: U16 := 42
  const KEY_LEFTALT: U16 := 56

  /** One `struct input_event` as `send_event` fills it (the time stamp is
      zeroed by the memset and left to the kernel). */
  datatype Event = Event(evType: U16, code: U16, value: I32)

  /** The report that makes the kernel apply the key changes sent before it. */
  const Sync := Event(EV_SYN, SYN_REPORT, 0)

  /** A key press followed by its report. */
  function Press(code: U16): seq<Event> { [Event(EV_KEY, code, 1), Sync] }

  /** A key release followed by its report. */
  function Release(code: U16): seq<Event> { [Event(EV_KEY, code, 0), Sync] }

  /** Every key event is immediately followed by a report, and nothing else
      is sent: the stream is a sequence of (key event, report) pairs. */
  predicate Synced(evs: seq<Event>)
    decreases |evs|
  {
    |evs| == 0 || (|evs| >= 2 && evs[0].evType == EV_KEY && evs[1] == Sync && Synced(evs[2..]))
  }

  lemma {:induction false} SyncedAppend(a: seq<Event>, b: seq<Event>)
    requires Synced(a) && Synced(b)
    ensures Synced(a + b)
    decreases |a|
  {
    if |a| > 0 {
      assert (a + b)[0] == a[0] && (a + b)[1] == a[1];
      assert (a + b)[2..] == a[2..] + b;
      SyncedAppend(a[2..], b);
    } else {
      assert a + b == b;
    }
  }

  /** The set of keys the kernel considers held after it has seen `e`,
      given that `held` were held before: a key event with value 0 releases
      its code, any other value presses it; reports change nothing. */
  function Apply(held: set<U16>, e: Event): set<U16>
  {
    if e.evType != EV_KEY then held
    else if e.value == 0 then held - {e.code}
    else held + {e.code}
  }

  /** The keys held after the whole stream `evs`, starting from `held`. */
  function HeldAfter(held: set<U16>, evs: seq<Event>): set<U16>
    decreases |evs|
  {
    if evs == [] then held else HeldAfter(Apply(held, evs[0]), evs[1..])
  }

  lemma {:induction false} HeldAfterAppend(held: set<U16>, a: seq<Event>, b: seq<Event>)
    ensures HeldAfter(held, a + b) == HeldAfter(HeldAfter(held, a), b)
    decreases |a|
  {
    if a != [] {
      assert (a + b)[0] == a[0];
      assert (a + b)[1..] == a[1..] + b;
      HeldAfterAppend(Apply(held, a[0]), a[1..], b);
    } else {
      assert a + b == b;
    }
  }

  /** The codes occurring in a bracket. */
  function Elems(codes: seq<U16>): set<U16> { set c | c in codes }

  /** Press each code in order, each press followed by a report. */
  function PressAll(codes: seq<U16>): seq<Event>
    decreases |codes|
  {
    if codes == [] then [] else Press(codes[0]) + PressAll(codes[1..])
  }

  /** Release each code in order, each release followed by a report. */
  function ReleaseAll(codes: seq<U16>): seq<Event>
    decreases |codes|
  {
    if codes == [] then [] else Release(codes[0]) + ReleaseAll(codes[1..])
  }

  function Reversed(codes: seq<U16>): seq<U16>
    decreases |codes|
  {
    if codes == [] then [] else Reversed(codes[1..]) + [codes[0]]
  }

  /** The nesting the kernel needs to see a key as modified: press the
      outermost modifier first and the main key last, then release in the
      opposite order. This is the reference the translator is checked
      against. */
  function Chord(codes: seq<U16>): seq<Event>
  {
    PressAll(codes) + ReleaseAll(Reversed(codes))
  }

  lemma {:induction false} ReleaseAllSnoc(codes: seq<U16>, c: U16)
    ensures ReleaseAll(codes + [c]) == ReleaseAll(codes) + Release(c)
    decreases |codes|
  {
    if codes != [] {
      assert (codes + [c])[1..] == codes[1..] + [c];
      ReleaseAllSnoc(codes[1..], c);
    }
  }

  /** Adding an outer bracket key `c` around a chord. */
  lemma ChordWrap(c: U16, inner: seq<U16>)
    ensures Chord([c] + inner) == Press(c) + Chord(inner) + Release(c)
  {
    var codes := [c] + inner;
    assert codes[1..] == inner;
    assert Reversed(codes) == Reversed(inner) + [c];
    ReleaseAllSnoc(Reversed(inner), c);
  }

  /** A chord of one key is its press and its release. */
  lemma ChordSingle(c: U16)
    ensures Chord([c]) == Press(c) + Release(c)
  {
    assert [c][1..] == [];
    assert Reversed([c]) == [c];
    assert PressAll([c]) == Press(c) + PressAll([]);
    assert ReleaseAll([c]) == Release(c) + ReleaseAll([]);
  }

  lemma SingleHalves(c: U16)
    ensures PressAll([c]) == Press(c) && ReleaseAll([c]) == Release(c)
  {
    assert [c][1..] == [];
  }

  /** Putting at most one outer key around a chord. */
  lemma ChordAround(outer: seq<U16>, inner: seq<U16>)
    requires |outer| <= 1
    ensures Chord(outer + inner) == PressAll(outer) + Chord(inner) + ReleaseAll(outer)
  {
    if outer == [] {
      assert outer + inner == inner;
    } else {
      var c := outer[0];
      assert outer == [c];
      ChordWrap(c, inner);
      SingleHalves(c);
    }
  }

  lemma {:induction false} PressAllSynced(codes: seq<U16>)
    ensures Synced(PressAll(codes))
    decreases |codes|
  {
    if codes != [] {
      PressAllSynced(codes[1..]);
      assert (Press(codes[0]) + PressAll(codes[1..]))[2..] == PressAll(codes[1..]);
    }
  }

  lemma {:induction false} ReleaseAllSynced(codes: seq<U16>)
    ensures Synced(ReleaseAll(codes))
    decreases |codes|
  {
    if codes != [] {
      ReleaseAllSynced(codes[1..]);
      assert (Release(codes[0]) + ReleaseAll(codes[1..]))[2..] == ReleaseAll(codes[1..]);
    }
  }

  /** Every key event of a chord is followed by its report. */
  lemma ChordSynced(codes: seq<U16>)
    ensures Synced(Chord(codes))
  {
    PressAllSynced(codes);
    ReleaseAllSynced(Reversed(codes));
    SyncedAppend(PressAll(codes), ReleaseAll(Reversed(codes)));
  }

  lemma PressHeld(held: set<U16>, c: U16)
    ensures HeldAfter(held, Press(c)) == held + {c}
  {
    var p := Press(c);
    assert p[1..] == [Sync] && p[1..][1..] == [];
    assert HeldAfter(held, p) == HeldAfter(held + {c}, [Sync]);
  }

  lemma ReleaseHeld(held: set<U16>, c: U16)
    ensures HeldAfter(held, Release(c)) == held - {c}
  {
    var r := Release(c);
    assert r[1..] == [Sync] && r[1..][1..] == [];
    assert HeldAfter(held, r) == HeldAfter(held - {c}, [Sync]);
  }

  lemma {:induction false} PressAllHeld(held: set<U16>, codes: seq<U16>)
    ensures HeldAfter(held, PressAll(codes)) == held + Elems(codes)
    decreases |codes|
  {
    if codes != [] {
      HeldAfterAppend(held, Press(codes[0]), PressAll(codes[1..]));
      PressHeld(held, codes[0]);
      PressAllHeld(held + {codes[0]}, codes[1..]);
      assert Elems(codes) == {codes[0]} + Elems(codes[1..]) by {
        assert codes == [codes[0]] + codes[1..];
      }
    }
  }

  lemma {:induction false} ReleaseAllHeld(held: set<U16>, codes: seq<U16>)
    ensures HeldAfter(held, ReleaseAll(codes)) == held - Elems(codes)
    decreases |codes|
  {
    if codes != [] {
      HeldAfterAppend(held, Release(codes[0]), ReleaseAll(codes[1..]));
      ReleaseHeld(held, codes[0]);
      ReleaseAllHeld(held - {codes[0]}, codes[1..]);
      assert Elems(codes) == {codes[0]} + Elems(codes[1..]) by {
        assert codes == [codes[0]] + codes[1..];
      }
    }
  }

  lemma {:induction false} ReversedElems(codes: seq<U16>)
    ensures Elems(Reversed(codes)) == Elems(codes)
    decreases |codes|
  {
    if codes != [] {
      ReversedElems(codes[1..]);
      assert Elems(codes) == {codes[0]} + Elems(codes[1..]) by {
        assert codes == [codes[0]] + codes[1..];
      }
    }
  }

  /** Once the press half of a chord has been applied, every key of the
      bracket is held at once; once the release half has been applied,
      none of them is, and keys outside the bracket are as they were. */
  lemma ChordHeld(held: set<U16>, codes: seq<U16>)
    ensures HeldAfter(held, PressAll(codes)) == held + Elems(codes)
    ensures HeldAfter(held, Chord(codes)) == held - Elems(codes)
  {
    PressAllHeld(held, codes);
    HeldAfterAppend(held, PressAll(codes), ReleaseAll(Reversed(codes)));
    ReleaseAllHeld(held + Elems(codes), Reversed(codes));
    ReversedElems(codes);
  }

  lemma {:induction false} PressAllCodes(codes: seq<U16>)
    ensures forall e :: e in PressAll(codes) && e.evType == EV_KEY ==> e.code in codes
    decreases |codes|
  {
    if codes != [] {
      PressAllCodes(codes[1..]);
      assert forall c :: c in codes[1..] ==> c in codes;
    }
  }

  lemma {:induction false} ReleaseAllCodes(codes: seq<U16>)
    ensures forall e :: e in ReleaseAll(codes) && e.evType == EV_KEY ==> e.code in codes
    decreases |codes|
  {
    if codes != [] {
      ReleaseAllCodes(codes[1..]);
      assert forall c :: c in codes[1..] ==> c in codes;
    }
  }

  /** A chord sends key events for the codes of its bracket only. */
  lemma ChordCodes(codes: seq<U16>)
    ensures forall e :: e in Chord(codes) && e.evType == EV_KEY ==> e.code in codes
  {
    PressAllCodes(codes);
    ReleaseAllCodes(Reversed(codes));
    ReversedElems(codes);
    forall c | c in Reversed(codes) ensures c in codes {
      assert c in Elems(Reversed(codes));
    }
  }

  /** The virtual keyboard behind the file descriptor `fd`: the event types
      and key codes declared with UI_SET_EVBIT and UI_SET_KEYBIT, whether
      UI_DEV_CREATE has been issued, and the events written so far. */
  class Device {
    var evBits: seq<U16>
    var keyBits: seq<U16>
    var created: bool
    ghost var log: seq<Event>

    /** Opening /dev/uinput: nothing declared, nothing written. */
    constructor Open()
      ensures evBits == [] && keyBits == [] && !created && log == []
    {
      evBits, keyBits, created := [], [], false;
      log := [];
    }

    /** ioctl(fd, UI_SET_EVBIT, evType). */
    method SetEvBit(evType: U16)
      requires !created
      modifies this`evBits
      ensures evBits == old(evBits) + [evType]
    {
      evBits := evBits + [evType];
    }

    /** ioctl(fd, UI_SET_KEYBIT, code); the kernel accepts it only before
        the device is created. */
    method SetKeyBit(code: U16)
      requires !created
      modifies this`keyBits
      ensures keyBits == old(keyBits) + [code]
    {
      keyBits := keyBits + [code];
    }

    /** ioctl(fd, UI_DEV_CREATE). */
    method DevCreate()
      modifies this`created
      ensures created
    {
      created := true;
    }

    /** `send_event`: one event triple appended to the device's stream. */
    method SendEvent(evType: U16, code: U16, value: I32)
      modifies this`log
      ensures log == old(log) + [Event(evType, code, value)]
    {
      log := log + [Event(evType, code, value)];
    }
  }
}
