/** The translation tables of keymap.h and `fill_keymap`, which spreads the
    compact table of printable characters over a dense array indexed by
    codepoint. */
module Keymap {
  import opened Uinput

  /** The number of codepoints the dense keymap covers. */
  const MAP_SIZE := 10000

  /** A C bit mask, as the set of the positions of its 1 bits: `a & b` is
      non-zero exactly when the two sets meet. */
  type Mask = set<nat>

  /** `(a & b) != 0`. */
  predicate Meets(a: Mask, b: Mask) { a * b != {} }

  /** One `struct keymap` slot of the dense array: the modifier bits the
      character needs and the kernel code of its key. */
  datatype Slot = Slot(modifier: Mask, kernelCode: U16)

  /** One `struct map` row of `kmap`: a codepoint typed on the terminal, the
      modifier bits and the kernel code that produce it. */
  datatype MapEntry = MapEntry(usercode: int, modifier: Mask, kernelCode: U16)

  /** The contents of keymap.h, which is not part of this model: the compact
      table `kmap`, the key-symbol table `keysymmap`, the function-key table
      `fnmap`, and the bit values of the `SHIFT` and `ALT` modifier flags. */
  datatype Tables = Tables(kmap: seq<MapEntry>, keysymmap: seq<U16>, fnmap: seq<U16>, shift: Mask, alt: Mask)

  /** `SHIFT` and `ALT` are two different single-bit flags. */
  predicate FlagsWellFormed(t: Tables)
  {
    |t.shift| == 1 && |t.alt| == 1 && t.shift !! t.alt
  }

  /** `fill_keymap` indexes the array by every usercode without checking it. */
  predicate UsercodesBelow(kmap: seq<MapEntry>, size: int)
  {
    forall i :: 0 <= i < |kmap| ==> 0 <= kmap[i].usercode < size
  }

  /** Entry `i` is the last entry of `kmap` for codepoint `u`. */
  predicate LastEntryFor(kmap: seq<MapEntry>, u: int, i: int)
  {
    0 <= i < |kmap| && kmap[i].usercode == u &&
    forall j :: i < j < |kmap| ==> kmap[j].usercode != u
  }

  /** Codepoint `u` has an entry in `kmap`. */
  predicate Mapped(kmap: seq<MapEntry>, u: int)
  {
    exists i :: 0 <= i < |kmap| && kmap[i].usercode == u
  }

  /** The dense array after the entries of `kmap` have been written, one
      after the other, over the array `base`. */
  function Filled(kmap: seq<MapEntry>, base: seq<Slot>): (r: seq<Slot>)
    requires UsercodesBelow(kmap, |base|)
    ensures |r| == |base|
    decreases |kmap|
  {
    if kmap == [] then base
    else
      var e := kmap[|kmap| - 1];
      Filled(kmap[..|kmap| - 1], base)[e.usercode := Slot(e.modifier, e.kernelCode)]
  }

  /** `fill_keymap`: writes the modifier and then the kernel code of each
      entry of `kmap`, in order, into the slot of its usercode. */
  method FillKeymap(keymap: array<Slot>, kmap: seq<MapEntry>)
    requires UsercodesBelow(kmap, keymap.Length)
    modifies keymap
    ensures keymap[..] == Filled(kmap, old(keymap[..]))
    ensures forall u :: 0 <= u < keymap.Length && !Mapped(kmap, u) ==> keymap[u] == old(keymap[u])
  {
    var i := 0;
    while i < |kmap|
      invariant 0 <= i <= |kmap|
      invariant keymap[..] == Filled(kmap[..i], old(keymap[..]))
    {
      var cur := kmap[i];
      keymap[cur.usercode] := keymap[cur.usercode].(modifier := cur.modifier);
      keymap[cur.usercode] := keymap[cur.usercode].(kernelCode := cur.kernelCode);
      assert kmap[..i + 1][..i] == kmap[..i];
      i := i + 1;
    }
    assert kmap[..|kmap|] == kmap;
    forall u | 0 <= u < keymap.Length && !Mapped(kmap, u)
      ensures keymap[u] == old(keymap[u])
    {
      FilledUnmapped(kmap, old(keymap[..]), u);
    }
  }

  /** A slot whose codepoint has no entry in `kmap` keeps what it held. */
  lemma {:induction false} FilledUnmapped(kmap: seq<MapEntry>, base: seq<Slot>, u: int)
    requires UsercodesBelow(kmap, |base|)
    requires 0 <= u < |base| && !Mapped(kmap, u)
    ensures Filled(kmap, base)[u] == base[u]
    decreases |kmap|
  {
    if kmap != [] {
      var init := kmap[..|kmap| - 1];
      assert !Mapped(init, u) by {
        forall i | 0 <= i < |init| ensures init[i].usercode != u {
          assert init[i] == kmap[i];
        }
      }
      FilledUnmapped(init, base, u);
    }
  }

  /** When a codepoint occurs several times in `kmap`, its slot holds the
      modifier and kernel code of the last of those entries. */
  lemma {:induction false} FilledLastWins(kmap: seq<MapEntry>, base: seq<Slot>, u: int, i: int)
    requires UsercodesBelow(kmap, |base|)
    requires LastEntryFor(kmap, u, i)
    ensures Filled(kmap, base)[u] == Slot(kmap[i].modifier, kmap[i].kernelCode)
    decreases |kmap|
  {
    var n := |kmap| - 1;
    if i < n {
      var init := kmap[..n];
      assert LastEntryFor(init, u, i) by {
        forall j | i < j < |init| ensures init[j].usercode != u {
          assert init[j] == kmap[j];
        }
      }
      FilledLastWins(init, base, u, i);
    }
  }

  /** A codepoint that has an entry has a last one. */
  lemma {:induction false} LastEntryExists(kmap: seq<MapEntry>, u: int)
    requires Mapped(kmap, u)
    ensures exists i :: LastEntryFor(kmap, u, i)
    decreases |kmap|
  {
    var n := |kmap| - 1;
    if kmap[n].usercode == u {
      assert LastEntryFor(kmap, u, n);
    } else {
      var init := kmap[..n];
      var k :| 0 <= k < |kmap| && kmap[k].usercode == u;
      assert init[k] == kmap[k];
      LastEntryExists(init, u);
      var i :| LastEntryFor(init, u, i);
      assert init[i] == kmap[i];
      assert LastEntryFor(kmap, u, i);
    }
  }

  /** Filling an already filled array changes nothing: the result depends
      only on `kmap` in the slots it names and only on `base` elsewhere. */
  lemma FillIdempotent(kmap: seq<MapEntry>, base: seq<Slot>)
    requires UsercodesBelow(kmap, |base|)
    ensures Filled(kmap, Filled(kmap, base)) == Filled(kmap, base)
  {
    var once := Filled(kmap, base);
    var twice := Filled(kmap, once);
    forall u | 0 <= u < |base| ensures twice[u] == once[u] {
      if Mapped(kmap, u) {
        LastEntryExists(kmap, u);
        var i :| LastEntryFor(kmap, u, i);
        FilledLastWins(kmap, base, u, i);
        FilledLastWins(kmap, once, u, i);
      } else {
        FilledUnmapped(kmap, once, u);
      }
    }
  }
}
