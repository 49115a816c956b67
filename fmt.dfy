/** The part of Go's fmt.Sprintf that the server relies on: formats whose only
    verb is `%s`, applied to string arguments. Go reports a verb without an
    argument as `%!s(MISSING)` and appends the arguments no verb consumed as
    `%!(EXTRA string=a, string=b)`; both are modelled, because one notice of
    the server passes an argument to a format that has no verb. */
module Fmt {

  /** The formats covered: every `%` begins a `%s` verb. */
  predicate Supported(f: string)
  {
    forall i :: 0 <= i < |f| && f[i] == '%' ==> i + 1 < |f| && f[i + 1] == 's'
  }

  /** Number of `%s` verbs in a supported format. */
  function Verbs(f: string): nat
    requires Supported(f)
    decreases |f|
  {
    if f == [] then 0
    else if f[0] == '%' then
      assert Supported(f[2..]) by { ShiftSupported(f, 2); }
      1 + Verbs(f[2..])
    else
      assert Supported(f[1..]) by { ShiftSupported(f, 1); }
      Verbs(f[1..])
  }

  /** Expands the verbs of `f` from left to right, each taking the next
      argument; the result is the text produced and the arguments left over. */
  function Expand(f: string, args: seq<string>): (string, seq<string>)
    requires Supported(f)
    decreases |f|
  {
    if f == [] then ("", args)
    else if f[0] == '%' then
      assert Supported(f[2..]) by { ShiftSupported(f, 2); }
      if args == [] then
        var e := Expand(f[2..], []);
        ("%!s(MISSING)" + e.0, e.1)
      else
        var e := Expand(f[2..], args[1..]);
        (args[0] + e.0, e.1)
    else
      assert Supported(f[1..]) by { ShiftSupported(f, 1); }
      var e := Expand(f[1..], args);
      ([f[0]] + e.0, e.1)
  }

  /** The `string=a, string=b` list Go writes for unused arguments. */
  function ExtraList(xs: seq<string>): string
    requires xs != []
  {
    "string=" + xs[0] + if |xs| == 1 then "" else ", " + ExtraList(xs[1..])
  }

  /** fmt.Sprintf(f, args...) for a supported format and string arguments. */
  function Sprintf(f: string, args: seq<string>): string
    requires Supported(f)
  {
    var e := Expand(f, args);
    if e.1 == [] then e.0 else e.0 + "%!(EXTRA " + ExtraList(e.1) + ")"
  }

  /** A suffix that does not start right after a `%` is still supported. */
  lemma ShiftSupported(f: string, k: nat)
    requires Supported(f) && k <= |f|
    requires k > 0 ==> f[k - 1] != '%'
    ensures Supported(f[k..])
  {
    forall i | 0 <= i < |f[k..]| && f[k..][i] == '%'
      ensures i + 1 < |f[k..]| && f[k..][i + 1] == 's'
    {
      assert f[k + i] == '%';
    }
  }

  /** Every verb consumes exactly one argument: what is left over is the
      argument list without its first Verbs(f) entries. */
  lemma {:induction false} ExpandConsumes(f: string, args: seq<string>)
    requires Supported(f)
    ensures Expand(f, args).1 == if Verbs(f) <= |args| then args[Verbs(f)..] else []
    decreases |f|
  {
    if f == [] {
    } else if f[0] == '%' {
      ShiftSupported(f, 2);
      if args == [] {
        ExpandConsumes(f[2..], []);
      } else {
        ExpandConsumes(f[2..], args[1..]);
        if Verbs(f) <= |args| {
          assert args[1..][Verbs(f[2..])..] == args[Verbs(f)..];
        }
      }
    } else {
      ShiftSupported(f, 1);
      ExpandConsumes(f[1..], args);
    }
  }

  /** Sprintf reports an EXTRA list exactly when there are more arguments
      than verbs, and the list holds exactly the arguments after the first
      Verbs(f), in order. */
  lemma SprintfLeftover(f: string, args: seq<string>)
    requires Supported(f)
    ensures |args| <= Verbs(f) ==> Sprintf(f, args) == Expand(f, args).0
    ensures |args| > Verbs(f) ==>
      Sprintf(f, args) == Expand(f, args).0 + "%!(EXTRA " + ExtraList(args[Verbs(f)..]) + ")"
  {
    ExpandConsumes(f, args);
  }

  /** Text without `%` is copied unchanged and consumes no argument. */
  lemma {:induction false} ExpandLiteral(p: string, rest: string, args: seq<string>)
    requires '%' !in p && Supported(rest)
    ensures Supported(p + rest)
    ensures Expand(p + rest, args) == (p + Expand(rest, args).0, Expand(rest, args).1)
    decreases |p|
  {
    var f := p + rest;
    forall i | 0 <= i < |f| && f[i] == '%' ensures i + 1 < |f| && f[i + 1] == 's' {
      if i < |p| {
        assert false;
      } else {
        assert rest[i - |p|] == '%';
        assert f[i + 1] == rest[i - |p| + 1];
      }
    }
    if p != [] {
      assert f[0] == p[0];
      assert f[0] != '%';
      assert f[1..] == p[1..] + rest;
      ExpandLiteral(p[1..], rest, args);
      assert Expand(f, args) == ([f[0]] + Expand(f[1..], args).0, Expand(f[1..], args).1);
      assert p == [p[0]] + p[1..];
      assert [f[0]] + (p[1..] + Expand(rest, args).0) == p + Expand(rest, args).0;
    } else {
      assert f == rest && p + Expand(rest, args).0 == Expand(rest, args).0;
    }
  }

  /** A `%s` verb is replaced by the next argument. */
  lemma ExpandVerb(rest: string, a: string, args: seq<string>)
    requires Supported(rest)
    ensures Supported("%s" + rest)
    ensures Expand("%s" + rest, [a] + args) == (a + Expand(rest, args).0, Expand(rest, args).1)
  {
    var f := "%s" + rest;
    forall i | 0 <= i < |f| && f[i] == '%' ensures i + 1 < |f| && f[i + 1] == 's' {
      if i >= 2 {
        assert rest[i - 2] == '%';
        assert f[i + 1] == rest[i - 1];
      }
    }
    assert f[2..] == rest;
    assert ([a] + args)[1..] == args;
  }

  /** A format without verbs yields itself. */
  lemma ExpandNoVerbs(f: string, args: seq<string>)
    requires '%' !in f
    ensures Supported(f) && Expand(f, args) == (f, args)
  {
    ExpandLiteral(f, "", args);
    assert f + "" == f;
  }

  /** One verb, one argument: plain substitution. */
  lemma SprintfOne(p: string, s: string, a: string)
    requires '%' !in p && '%' !in s
    ensures Supported(p + "%s" + s)
    ensures Sprintf(p + "%s" + s, [a]) == p + a + s
  {
    ExpandNoVerbs(s, []);
    ExpandVerb(s, a, []);
    ExpandLiteral(p, "%s" + s, [a]);
    assert p + "%s" + s == p + ("%s" + s);
    assert [a] + [] == [a];
  }

  /** A `%s` verb followed by literal text: the argument, then the text. */
  lemma ExpandStep(m: string, rest: string, a: string, args: seq<string>)
    requires '%' !in m && Supported(rest)
    ensures Supported("%s" + (m + rest))
    ensures Expand("%s" + (m + rest), [a] + args) == (a + m + Expand(rest, args).0, Expand(rest, args).1)
  {
    ExpandLiteral(m, rest, args);
    ExpandVerb(m + rest, a, args);
    assert a + (m + Expand(rest, args).0) == a + m + Expand(rest, args).0;
  }

  /** When every argument is consumed, Sprintf is the expanded text. */
  lemma SprintfNoExtra(f: string, args: seq<string>, out: string)
    requires Supported(f) && Expand(f, args) == (out, [])
    ensures Sprintf(f, args) == out
  {
  }

  /** Two verbs, two arguments: both substituted in order. */
  lemma SprintfTwo(p: string, m: string, s: string, a: string, b: string)
    requires '%' !in p && '%' !in m && '%' !in s
    ensures Supported(p + "%s" + m + "%s" + s)
    ensures Sprintf(p + "%s" + m + "%s" + s, [a, b]) == p + a + m + b + s
  {
    var t := "%s" + s;
    var v := "%s" + (m + t);
    ExpandNoVerbs(s, []);
    ExpandVerb(s, b, []);
    assert [b] + [] == [b] && [a] + [b] == [a, b];
    assert Expand(t, [b]) == (b + s, []);
    ExpandStep(m, t, a, [b]);
    assert Expand(v, [a, b]) == (a + m + (b + s), []);
    ExpandLiteral(p, v, [a, b]);
    RegroupTwo(p, "%s", m, "%s", s);
    RegroupTwo(p, a, m, b, s);
    SprintfNoExtra(p + v, [a, b], p + (a + m + (b + s)));
  }

  /** Regrouping the five pieces of a two-verb format or of its output. */
  lemma RegroupTwo(p: string, a: string, m: string, b: string, s: string)
    ensures p + a + m + b + s == p + (a + m + (b + s))
    ensures p + a + m + b + s == p + (a + (m + (b + s)))
  {
  }

  /** Three verbs, three arguments: all substituted in order. */
  lemma SprintfThree(p: string, m: string, n: string, s: string, a: string, b: string, c: string)
    requires '%' !in p && '%' !in m && '%' !in n && '%' !in s
    ensures Supported(p + "%s" + m + "%s" + n + "%s" + s)
    ensures Sprintf(p + "%s" + m + "%s" + n + "%s" + s, [a, b, c]) == p + a + m + b + n + c + s
  {
    var t := "%s" + s;
    var u := "%s" + (n + t);
    var v := "%s" + (m + u);
    ExpandNoVerbs(s, []);
    ExpandVerb(s, c, []);
    assert [c] + [] == [c] && [b] + [c] == [b, c] && [a] + [b, c] == [a, b, c];
    assert Expand(t, [c]) == (c + s, []);
    ExpandStep(n, t, b, [c]);
    assert Expand(u, [b, c]) == (b + n + (c + s), []);
    ExpandStep(m, u, a, [b, c]);
    assert Expand(v, [a, b, c]) == (a + m + (b + n + (c + s)), []);
    ExpandLiteral(p, v, [a, b, c]);
    RegroupThree(p, "%s", m, "%s", n, "%s", s);
    RegroupThree(p, a, m, b, n, c, s);
    SprintfNoExtra(p + v, [a, b, c], p + (a + m + (b + n + (c + s))));
  }

  /** Regrouping the seven pieces of a three-verb format or of its output. */
  lemma RegroupThree(p: string, a: string, m: string, b: string, n: string, c: string, s: string)
    ensures p + a + m + b + n + c + s == p + (a + m + (b + n + (c + s)))
    ensures p + a + m + b + n + c + s == p + (a + (m + (b + (n + (c + s)))))
  {
  }

  /** An argument given to a format without verbs is reported after the text. */
  lemma SprintfExtra(f: string, a: string)
    requires '%' !in f
    ensures Supported(f)
    ensures Sprintf(f, [a]) == f + "%!(EXTRA string=" + a + ")"
  {
    ExpandNoVerbs(f, [a]);
  }
}
