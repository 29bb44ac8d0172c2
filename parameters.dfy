/** The argument-name extractor (`get_argument_names`). */
module Parameters {
  import opened Outcomes
  import opened Syntax

  function NamesOf(ps: seq<Arg>): set<string> {
    set p | p in ps :: p.arg
  }

  function OptionalName(p: Option<Arg>): set<string> {
    if p.Some? then {p.value.arg} else {}
  }

  function OptionalParameter(p: Option<Arg>): seq<Arg> {
    if p.Some? then [p.value] else []
  }

  /** The names `get_argument_names` gathers: the plain parameters, the `*vararg`, the `**kwarg`
      and the keyword-only parameters. Positional-only parameters are never read. */
  function ArgumentNames(a: Arguments): (r: set<string>)
    ensures forall p :: p in a.args || p in a.kwonlyargs ==> p.arg in r
    ensures a.vararg.Some? ==> a.vararg.value.arg in r
    ensures a.kwarg.Some? ==> a.kwarg.value.arg in r
  {
    NamesOf(a.args) + OptionalName(a.vararg) + OptionalName(a.kwarg) + NamesOf(a.kwonlyargs)
  }

  /** The parameters a definition declares after any positional-only ones, in the order they are
      written: `def f(a, b, *args, c, d=5, **kwargs)` declares a, b, args, c, d, kwargs. */
  function DeclaredParameters(a: Arguments): seq<Arg> {
    a.args + OptionalParameter(a.vararg) + a.kwonlyargs + OptionalParameter(a.kwarg)
  }

  /** A name is gathered exactly when some parameter outside the positional-only ones declares it. */
  lemma {:induction false} ArgumentNamesAreDeclared(a: Arguments, x: string)
    ensures x in ArgumentNames(a) <==> exists p :: p in DeclaredParameters(a) && p.arg == x
  {
    var d := DeclaredParameters(a);
    assert forall p :: p in d <==> p in a.args || p in OptionalParameter(a.vararg)
                                   || p in a.kwonlyargs || p in OptionalParameter(a.kwarg);
  }

  /** Positional-only parameters make no difference to the names gathered. */
  lemma PositionalOnlyIgnored(a: Arguments, posonly: seq<Arg>)
    ensures ArgumentNames(a.(posonlyargs := posonly)) == ArgumentNames(a)
  {
  }

  /** `get_argument_names`: start from the empty set, add the plain parameters one by one, then
      the `*vararg`, the `**kwarg`, and the keyword-only parameters one by one. */
  method GetArgumentNames(fn: Node) returns (names: set<string>)
    requires IsDef(fn)
    ensures names == ArgumentNames(fn.args)
    ensures forall x :: x in names <==> exists p :: p in DeclaredParameters(fn.args) && p.arg == x
  {
    var args := fn.args;
    names := {};
    for i := 0 to |args.args|
      invariant names == NamesOf(args.args[..i])
    {
      assert args.args[..i + 1] == args.args[..i] + [args.args[i]];
      names := names + {args.args[i].arg};
    }
    assert args.args[..|args.args|] == args.args;
    if args.vararg.Some? {
      names := names + {args.vararg.value.arg};
    }
    if args.kwarg.Some? {
      names := names + {args.kwarg.value.arg};
    }
    var before := names;
    for i := 0 to |args.kwonlyargs|
      invariant names == before + NamesOf(args.kwonlyargs[..i])
    {
      assert args.kwonlyargs[..i + 1] == args.kwonlyargs[..i] + [args.kwonlyargs[i]];
      names := names + {args.kwonlyargs[i].arg};
    }
    assert args.kwonlyargs[..|args.kwonlyargs|] == args.kwonlyargs;
    forall x ensures x in names <==> exists p :: p in DeclaredParameters(args) && p.arg == x {
      ArgumentNamesAreDeclared(args, x);
    }
  }
}
