/** `get_opts`: the command line only switches on the diagnostic output. */
module Options {

  /** `strncmp(a, b, n) == 0` for NUL-terminated strings held without their
      terminator: the first `n` characters agree, or both strings end
      together before that. */
  function StrncmpEq(a: string, b: string, n: nat): bool
    decreases n
  {
    if n == 0 then true
    else
      var ca := if a == [] then '\0' else a[0];
      var cb := if b == [] then '\0' else b[0];
      ca == cb && (ca == '\0' || StrncmpEq(a[1..], b[1..], n - 1))
  }

  /** Comparing with `sizeof("-v")`, three bytes including the terminator,
      accepts exactly the argument "-v" and not, say, "-verbose". */
  lemma DashVExactly(a: string)
    requires '\0' !in a
    ensures StrncmpEq(a, "-v", 3) <==> a == "-v"
  {
    if a != [] && a[0] == '-' {
      if |a| > 1 && a[1] == 'v' {
        if |a| > 2 {
          assert a[1..][1..][0] == a[2];
          assert a[2] != '\0';
        } else {
          assert a == "-v";
        }
      }
    }
  }

  /** The loop of `get_opts` over every argument, the program name
      included: verbose output is on iff some argument is exactly "-v". */
  method GetOpts(argv: seq<string>) returns (verbose: bool)
    requires forall i :: 0 <= i < |argv| ==> '\0' !in argv[i]
    ensures verbose <==> "-v" in argv
  {
    verbose := false;
    var i := 0;
    while i < |argv|
      invariant 0 <= i <= |argv|
      invariant verbose <==> "-v" in argv[..i]
    {
      DashVExactly(argv[i]);
      if StrncmpEq(argv[i], "-v", 3) {
        verbose := true;
      }
      assert argv[..i + 1] == argv[..i] + [argv[i]];
      i := i + 1;
    }
    assert argv[..|argv|] == argv;
  }
}
