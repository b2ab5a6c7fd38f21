/** The declaration part of `configure_dev`: the key codes the virtual
    keyboard announces before it is created. */
module DeviceConfig {
  import opened Uinput
  import opened Keymap

  /** The kernel codes of the entries of `kmap`, in table order. */
  function KernelCodes(kmap: seq<MapEntry>): (r: seq<U16>)
    ensures |r| == |kmap|
    ensures forall i :: 0 <= i < |kmap| ==> r[i] == kmap[i].kernelCode
    decreases |kmap|
  {
    if kmap == [] then []
    else KernelCodes(kmap[..|kmap| - 1]) + [kmap[|kmap| - 1].kernelCode]
  }

  /** The UI_SET_KEYBIT declarations in the order they are issued: every
      `kmap` kernel code, every `keysymmap` code, every `fnmap` code, then
      the left Ctrl, Alt and Shift keys. */
  function DeclaredCodes(t: Tables): seq<U16>
  {
    KernelCodes(t.kmap) + t.keysymmap + t.fnmap + [KEY_LEFTCTRL, KEY_LEFTALT, KEY_LEFTSHIFT]
  }

  /** The kernel code of `kmap` entry `i` is declared. */
  lemma KmapCodeDeclared(t: Tables, i: int)
    requires 0 <= i < |t.kmap|
    ensures t.kmap[i].kernelCode in DeclaredCodes(t)
  {
    assert DeclaredCodes(t)[i] == KernelCodes(t.kmap)[i];
  }

  /** Entry `i` of `keysymmap` is declared. */
  lemma KeysymCodeDeclared(t: Tables, i: int)
    requires 0 <= i < |t.keysymmap|
    ensures t.keysymmap[i] in DeclaredCodes(t)
  {
    assert DeclaredCodes(t)[|t.kmap| + i] == t.keysymmap[i];
  }

  /** Entry `i` of `fnmap` is declared. */
  lemma FnCodeDeclared(t: Tables, i: int)
    requires 0 <= i < |t.fnmap|
    ensures t.fnmap[i] in DeclaredCodes(t)
  {
    assert DeclaredCodes(t)[|t.kmap| + |t.keysymmap| + i] == t.fnmap[i];
  }

  /** The left Ctrl, Alt and Shift keys are declared. */
  lemma ModifiersDeclared(t: Tables)
    ensures KEY_LEFTCTRL in DeclaredCodes(t) && KEY_LEFTALT in DeclaredCodes(t) && KEY_LEFTSHIFT in DeclaredCodes(t)
  {
    var d := DeclaredCodes(t);
    assert d[|d| - 3] == KEY_LEFTCTRL && d[|d| - 2] == KEY_LEFTALT && d[|d| - 1] == KEY_LEFTSHIFT;
  }

  /** Every code any table can produce, and the three modifiers, is declared. */
  lemma DeclaredCovers(t: Tables)
    ensures forall i :: 0 <= i < |t.kmap| ==> t.kmap[i].kernelCode in DeclaredCodes(t)
    ensures forall i :: 0 <= i < |t.keysymmap| ==> t.keysymmap[i] in DeclaredCodes(t)
    ensures forall i :: 0 <= i < |t.fnmap| ==> t.fnmap[i] in DeclaredCodes(t)
    ensures KEY_LEFTCTRL in DeclaredCodes(t) && KEY_LEFTALT in DeclaredCodes(t) && KEY_LEFTSHIFT in DeclaredCodes(t)
  {
    forall i | 0 <= i < |t.kmap| ensures t.kmap[i].kernelCode in DeclaredCodes(t) {
      KmapCodeDeclared(t, i);
    }
    forall i | 0 <= i < |t.keysymmap| ensures t.keysymmap[i] in DeclaredCodes(t) {
      KeysymCodeDeclared(t, i);
    }
    forall i | 0 <= i < |t.fnmap| ensures t.fnmap[i] in DeclaredCodes(t) {
      FnCodeDeclared(t, i);
    }
    ModifiersDeclared(t);
  }

  /** The first declaration loop: UI_SET_KEYBIT for each `kmap` entry's
      kernel code, in table order. */
  method DeclareKmap(dev: Device, kmap: seq<MapEntry>)
    requires !dev.created
    modifies dev`keyBits
    ensures dev.keyBits == old(dev.keyBits) + KernelCodes(kmap)
  {
    var i := 0;
    while i < |kmap|
      invariant 0 <= i <= |kmap|
      invariant dev.keyBits == old(dev.keyBits) + KernelCodes(kmap[..i])
    {
      dev.SetKeyBit(kmap[i].kernelCode);
      assert kmap[..i + 1][..i] == kmap[..i];
      i := i + 1;
    }
    assert kmap[..|kmap|] == kmap;
  }

  /** The second and third declaration loops: UI_SET_KEYBIT for each code
      of `keysymmap` or `fnmap`, in table order. */
  method DeclareTable(dev: Device, table: seq<U16>)
    requires !dev.created
    modifies dev`keyBits
    ensures dev.keyBits == old(dev.keyBits) + table
  {
    var i := 0;
    while i < |table|
      invariant 0 <= i <= |table|
      invariant dev.keyBits == old(dev.keyBits) + table[..i]
    {
      dev.SetKeyBit(table[i]);
      assert table[..i + 1] == table[..i] + [table[i]];
      i := i + 1;
    }
    assert table[..|table|] == table;
  }

  /** The ioctl sequence of `configure_dev` after the device structure has
      been written: enable key events, declare every code, create. */
  method Configure(dev: Device, t: Tables)
    requires !dev.created
    modifies dev
    ensures dev.created
    ensures dev.evBits == old(dev.evBits) + [EV_KEY]
    ensures dev.keyBits == old(dev.keyBits) + DeclaredCodes(t)
    ensures dev.log == old(dev.log)
  {
    dev.SetEvBit(EV_KEY);
    DeclareKmap(dev, t.kmap);
    DeclareTable(dev, t.keysymmap);
    DeclareTable(dev, t.fnmap);
    dev.SetKeyBit(KEY_LEFTCTRL);
    dev.SetKeyBit(KEY_LEFTALT);
    dev.SetKeyBit(KEY_LEFTSHIFT);
    dev.DevCreate();
  }
}
