/**
 The part of Go's `fmt.Sprintf` the program uses: literal text is copied,
 `%s` inserts a string argument verbatim, `%d` inserts an integer argument in
 decimal and `%%` writes a single `%`.
 */
module Format {
  import opened Decimal

  datatype Arg = Str(s: string) | Int(n: int)

  /**
   The template's verbs are all `%s`, `%d` or `%%`, and its `%s` and `%d`
   verbs consume the arguments exactly, in order and with matching kinds.
   */
  predicate Matches(t: string, args: seq<Arg>)
    decreases |t|
  {
    if |t| == 0 then |args| == 0
    else if t[0] != '%' then Matches(t[1..], args)
    else if |t| == 1 then false
    else if t[1] == '%' then Matches(t[2..], args)
    else |args| >= 1
         && ((t[1] == 's' && args[0].Str?) || (t[1] == 'd' && args[0].Int?))
         && Matches(t[2..], args[1..])
  }

  function Sprintf(t: string, args: seq<Arg>): string
    requires Matches(t, args)
    decreases |t|
  {
    if |t| == 0 then ""
    else if t[0] != '%' then [t[0]] + Sprintf(t[1..], args)
    else if t[1] == '%' then "%" + Sprintf(t[2..], args)
    else if t[1] == 's' then args[0].s + Sprintf(t[2..], args[1..])
    else IntToDecimal(args[0].n) + Sprintf(t[2..], args[1..])
  }

  /** Literal text without `%` is copied to the output unchanged. */
  lemma {:induction false} SprintfLiteral(lit: string, rest: string, args: seq<Arg>)
    requires '%' !in lit
    ensures Matches(lit + rest, args) == Matches(rest, args)
    ensures Matches(rest, args) ==> Sprintf(lit + rest, args) == lit + Sprintf(rest, args)
    decreases |lit|
  {
    if |lit| > 0 {
      assert (lit + rest)[1..] == lit[1..] + rest;
      SprintfLiteral(lit[1..], rest, args);
      if Matches(rest, args) {
        assert lit == [lit[0]] + lit[1..];
      }
    } else {
      assert lit + rest == rest;
    }
  }

  /** A `%s` verb writes its string argument verbatim. */
  lemma SprintfString(s: string, rest: string, args: seq<Arg>)
    ensures Matches("%s" + rest, [Str(s)] + args) == Matches(rest, args)
    ensures Matches(rest, args) ==> Sprintf("%s" + rest, [Str(s)] + args) == s + Sprintf(rest, args)
  {
    assert ("%s" + rest)[2..] == rest;
    assert ([Str(s)] + args)[1..] == args;
  }

  /** A `%d` verb writes its integer argument in decimal. */
  lemma SprintfInt(n: int, rest: string, args: seq<Arg>)
    ensures Matches("%d" + rest, [Int(n)] + args) == Matches(rest, args)
    ensures Matches(rest, args) ==> Sprintf("%d" + rest, [Int(n)] + args) == IntToDecimal(n) + Sprintf(rest, args)
  {
    assert ("%d" + rest)[2..] == rest;
    assert ([Int(n)] + args)[1..] == args;
  }

  /** The verb that consumes `a`. */
  function VerbOf(a: Arg): string {
    if a.Str? then "%s" else "%d"
  }

  /** What that verb writes for `a`. */
  function Render(a: Arg): string {
    if a.Str? then a.s else IntToDecimal(a.n)
  }

  /** One literal part followed by one verb: the part is copied, then the argument rendered. */
  lemma SprintfStep(lit: string, a: Arg, rest: string, args: seq<Arg>)
    requires '%' !in lit && Matches(rest, args)
    ensures Matches(lit + (VerbOf(a) + rest), [a] + args)
    ensures Sprintf(lit + (VerbOf(a) + rest), [a] + args) == lit + (Render(a) + Sprintf(rest, args))
  {
    if a.Str? {
      SprintfString(a.s, rest, args);
    } else {
      SprintfInt(a.n, rest, args);
    }
    SprintfLiteral(lit, VerbOf(a) + rest, [a] + args);
  }

  /** Literal parts `p0`..`p3` around the verbs for `a1`, `a2`, `a3`. */
  function Template3(p0: string, p1: string, p2: string, p3: string, a1: Arg, a2: Arg, a3: Arg): string {
    p0 + (VerbOf(a1) + (p1 + (VerbOf(a2) + (p2 + (VerbOf(a3) + p3)))))
  }

  /** Such a template, applied to its three arguments, writes the parts with the rendered arguments between them. */
  lemma SprintfThree(p0: string, p1: string, p2: string, p3: string, a1: Arg, a2: Arg, a3: Arg)
    requires '%' !in p0 && '%' !in p1 && '%' !in p2 && '%' !in p3
    ensures Matches(Template3(p0, p1, p2, p3, a1, a2, a3), [a1, a2, a3])
    ensures Sprintf(Template3(p0, p1, p2, p3, a1, a2, a3), [a1, a2, a3])
            == p0 + (Render(a1) + (p1 + (Render(a2) + (p2 + (Render(a3) + p3)))))
  {
    var noArgs: seq<Arg> := [];
    SprintfLiteral(p3, "", noArgs);
    assert p3 + "" == p3;
    SprintfStep(p2, a3, p3, noArgs);
    var args3 := [a3] + noArgs;
    var t3 := p2 + (VerbOf(a3) + p3);
    SprintfStep(p1, a2, t3, args3);
    var args2 := [a2] + args3;
    var t2 := p1 + (VerbOf(a2) + t3);
    SprintfStep(p0, a1, t2, args2);
    assert [a1] + args2 == [a1, a2, a3];
  }
}
