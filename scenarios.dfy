/** Programs from the plugin's test suite, written out as syntax trees, with their outcomes under
    the model stated as lemmas and proved.
    Identifiers the outcome does not depend on are parameters. Line numbers are those of the dedented
    snippets. `Def` fixes column 0, which is exact for the top-level definitions whose findings
    are stated and immaterial for the nested ones; the other trees carry their own column. Where the suite checks a later version of the plugin, the lemma states what the code
    modelled here produces. */
module Scenarios {
  import opened Outcomes
  import opened Syntax
  import opened Collector
  import opened Parameters
  import opened Usage
  import opened Decorators
  import opened Lint

  /** A parameter without annotation. */
  function P(name: string): Arg {
    Arg(name, None)
  }

  /** A name being read. */
  function Read(id: string): Node {
    Name(id, Load)
  }

  /** A literal the plugin does not distinguish (`5`, `'text'`). */
  const Literal := Other([])

  /** A parameter list of plain parameters only. */
  function Plain(ps: seq<Arg>): Arguments {
    Arguments([], ps, None, [], [], None, [])
  }

  /** `def name(<ps>): <statement>` with the given decorators, at `line`, column 0. */
  function Def(name: string, ps: seq<Arg>, statement: Node, decorators: seq<Node>, line: int): Node {
    FunctionDef(name, Plain(ps), [statement], decorators, None, line, 0)
  }

  // ----- get_argument_names -----

  /** `def foo(a, b, *args, c, d=5, e, **kwargs): pass` */
  const Signature := FunctionDef(
    "foo",
    Arguments([], [P("a"), P("b")], Some(P("args")), [P("c"), P("d"), P("e")],
              [None, Some(Literal), None], Some(P("kwargs")), []),
    [Pass], [], None, 1, 0)

  /** Every parameter is gathered, the variadic and keyword-only ones included. */
  method SignatureNames() returns (names: set<string>)
    ensures names == {"a", "b", "args", "c", "d", "e", "kwargs"}
  {
    names := GetArgumentNames(Signature);
    NamesOfTwo("a", "b");
    NamesOfThree("c", "d", "e");
  }

  // ----- get_unused_arguments -----

  /** A node without children reads only its own id, and that only when it is not assigned. */
  lemma ReadsOfLeaf(n: Node)
    requires Children(n) == []
    ensures ReadNames(n) == if n.Name? && n.ctx != Store then {n.id} else {}
  {
    assert ReadNamesIn(Children(n), n) == {};
  }

  /** A name being read reads itself. */
  lemma ReadsOfRead(id: string)
    ensures ReadNames(Read(id)) == {id}
  {
    ReadsOfLeaf(Read(id));
  }

  /** `pass` reads nothing. */
  lemma ReadsOfPass()
    ensures ReadNames(Pass) == {}
  {
    ReadsOfLeaf(Pass);
  }

  /** A node other than a Name with one child reads what the child reads. */
  lemma ReadsThroughOne(n: Node)
    requires |Children(n)| == 1 && !n.Name?
    ensures ReadNames(n) == ReadNames(Children(n)[0])
  {
    var cs := Children(n);
    ChildrenSmaller(n);
    assert cs == [cs[0]];
    ReadsOfOne(cs[0], n);
  }

  /** One node reads what it reads. */
  lemma ReadsOfOne(a: Node, parent: Node)
    requires a < parent
    ensures ReadNamesIn([a], parent) == ReadNames(a)
  {
    assert [a][..0] == [];
  }

  /** Two nodes read what either of them reads. */
  lemma ReadsOfTwo(a: Node, b: Node, parent: Node)
    requires a < parent && b < parent
    ensures ReadNamesIn([a, b], parent) == ReadNames(a) + ReadNames(b)
  {
    var s := [a, b];
    assert s[..1] == [a] && s[..2] == s;
    ReadsOfOne(a, parent);
    ReadNamesInStep(s, parent, 1);
  }

  /** A node other than a Name with two children reads what either child reads. */
  lemma ReadsThroughTwo(n: Node)
    requires |Children(n)| == 2 && !n.Name?
    ensures ReadNames(n) == ReadNames(Children(n)[0]) + ReadNames(Children(n)[1])
  {
    var cs := Children(n);
    ChildrenSmaller(n);
    assert cs == [cs[0], cs[1]];
    ReadsOfTwo(cs[0], cs[1], n);
  }

  /** Parameters without annotations contribute no sub-trees. */
  lemma PlainHasNoChildren(ps: seq<Arg>)
    requires forall i :: 0 <= i < |ps| ==> ps[i].annotation == None
    ensures ArgumentsChildren(Plain(ps)) == []
  {
    if ps != [] {
      PlainHasNoChildren(ps[1..]);
    }
  }

  /** A definition of plain parameters has its statement, then its decorators, as children. */
  lemma ChildrenOfDef(name: string, ps: seq<Arg>, statement: Node, decorators: seq<Node>, line: int)
    requires forall i :: 0 <= i < |ps| ==> ps[i].annotation == None
    ensures Children(Def(name, ps, statement, decorators, line)) == [statement] + decorators
  {
    PlainHasNoChildren(ps);
  }

  /** An undecorated definition of plain parameters reads what its one statement reads. */
  lemma ReadsOfDef(name: string, ps: seq<Arg>, statement: Node, line: int)
    requires forall i :: 0 <= i < |ps| ==> ps[i].annotation == None
    ensures ReadNames(Def(name, ps, statement, [], line)) == ReadNames(statement)
  {
    ChildrenOfDef(name, ps, statement, [], line);
    assert [statement] + [] == [statement];
    ReadsThroughOne(Def(name, ps, statement, [], line));
  }

  /** The names of one, two and three plain parameters. */
  lemma NamesOfOne(a: string)
    ensures NamesOf([P(a)]) == {a}
  {
    assert forall p :: p in [P(a)] <==> p == P(a);
  }

  lemma NamesOfTwo(a: string, b: string)
    ensures NamesOf([P(a), P(b)]) == {a, b}
  {
    assert forall p :: p in [P(a), P(b)] <==> p == P(a) || p == P(b);
  }

  lemma NamesOfThree(a: string, b: string, c: string)
    ensures NamesOf([P(a), P(b), P(c)]) == {a, b, c}
  {
    assert forall p :: p in [P(a), P(b), P(c)] <==> p == P(a) || p == P(b) || p == P(c);
  }

  /** `a + b` reads `a` and `b`. */
  lemma ReadsOfPair(a: string, b: string)
    ensures ReadNames(Other([Read(a), Read(b)])) == {a, b}
  {
    ReadsOfRead(a);
    ReadsOfRead(b);
    ReadsThroughTwo(Other([Read(a), Read(b)]));
  }

  /** `def foo(a, b, c): return a + b`: the parameter not read is unused. */
  lemma UnusedOfSum(a: string, b: string, c: string)
    requires c != a && c != b
    ensures UnusedArguments(Def("foo", [P(a), P(b), P(c)], Other([Other([Read(a), Read(b)])]), [], 1)) == {c}
  {
    var fn := Def("foo", [P(a), P(b), P(c)], Other([Other([Read(a), Read(b)])]), [], 1);
    assert ReadNames(Other([Other([Read(a), Read(b)])])) == {a, b} by {
      ReadsOfPair(a, b);
      ReadsThroughOne(Other([Other([Read(a), Read(b)])]));
    }
    assert ReadNames(fn) == {a, b} by {
      ReadsOfDef("foo", [P(a), P(b), P(c)], Other([Other([Read(a), Read(b)])]), 1);
    }
    assert ArgumentNames(fn.args) == {a, b, c} by {
      NamesOfThree(a, b, c);
    }
  }

  /** `def bar(self, cool): self.thing = cool`: the assignment target `self.thing` reads `self`,
      so neither parameter is unused. */
  lemma UnusedOfAttributeAssignment(self: string, cool: string, thing: string)
    ensures var assign := Other([Attribute(Read(self), thing, Store), Read(cool)]);
            UnusedArguments(Def("bar", [P(self), P(cool)], assign, [], 3)) == {}
  {
    var target := Attribute(Read(self), thing, Store);
    var fn := Def("bar", [P(self), P(cool)], Other([target, Read(cool)]), [], 3);
    assert ReadNames(fn) == {self, cool} by {
      ReadsOfRead(self);
      ReadsOfRead(cool);
      ReadsThroughOne(target);
      ReadsThroughTwo(Other([target, Read(cool)]));
      ReadsOfDef("bar", [P(self), P(cool)], Other([target, Read(cool)]), 3);
    }
    assert ArgumentNames(fn.args) == {self, cool} by {
      NamesOfTwo(self, cool);
    }
  }

  /** `def external(a, b, c):` holding `def internal(): a + b`: what the inner definition reads
      counts as used by the outer one. */
  lemma UnusedOfNestedReader(a: string, b: string, c: string)
    requires c != a && c != b
    ensures var internal := Def("internal", [], Expr(Other([Read(a), Read(b)])), [], 3);
            UnusedArguments(Def("external", [P(a), P(b), P(c)], internal, [], 2)) == {c}
  {
    var internal := Def("internal", [], Expr(Other([Read(a), Read(b)])), [], 3);
    var fn := Def("external", [P(a), P(b), P(c)], internal, [], 2);
    assert ReadNames(Expr(Other([Read(a), Read(b)]))) == {a, b} by {
      ReadsOfPair(a, b);
      ReadsThroughOne(Expr(Other([Read(a), Read(b)])));
    }
    assert ReadNames(internal) == {a, b} by {
      ReadsOfDef("internal", [], Expr(Other([Read(a), Read(b)])), 3);
    }
    assert ReadNames(fn) == {a, b} by {
      ReadsOfDef("external", [P(a), P(b), P(c)], internal, 2);
    }
    assert ArgumentNames(fn.args) == {a, b, c} by {
      NamesOfThree(a, b, c);
    }
  }

  /** `lambda g: 5` leaves its parameter unused. */
  lemma UnusedOfConstantLambda(g: string)
    ensures UnusedArguments(Lambda(Plain([P(g)]), Literal, 1, 4)) == {g}
  {
    PlainHasNoChildren([P(g)]);
    ReadsOfLeaf(Literal);
    ReadsThroughOne(Lambda(Plain([P(g)]), Literal, 1, 4));
    NamesOfOne(g);
  }

  // ----- get_decorator_names -----

  /** `@a @thing.b @thing.c() @d()`: the first three resolve, then `d()`, whose callee has no
      `.attr`, raises. A Lambda has no decorator list at all. */
  lemma DecoratorExamples()
    ensures ResolveAll([Read("a"), Attribute(Read("thing"), "b", Load),
                        Call(Attribute(Read("thing"), "c", Load), []), Call(Read("d"), [])])
            == Yielded(["a", "b", "c"], Some(CalleeHasNoAttr))
    ensures DecoratorNames(Lambda(Plain([P("g")]), Literal, 1, 0)) == Yielded([], Some(LambdaHasNoDecoratorList))
  {
  }

  // ----- FunctionFinder -----

  /** `def <outer>(a=1):` holding `def <inner>(b=1): return b`, then `return <inner>(a)`. */
  function NestedDef(outer: string, inner: string, line: int, col: int): Node {
    var defaulted := Arguments([], [P("a")], None, [], [], None, [Literal]);
    var innerDef := FunctionDef(inner, defaulted.(args := [P("b")]), [Other([Read("b")])], [], None, line + 1, col + 4);
    FunctionDef(outer, defaulted, [innerDef, Other([Call(Read(inner), [Read("a")])])], [], None, line, col)
  }

  const SomeFunction := NestedDef("some_function", "some_nested_function", 2, 0)
  const SomeMethod := NestedDef("some_method", "some_nested_method", 8, 4)
  const SomeClass := ClassDef("SomeClass", [], [SomeMethod], [])
  const FinderModule := Module([SomeFunction, SomeClass])

  /** A container with one child records what the child records. */
  lemma CollectThroughOne(n: Node)
    requires |Children(n)| == 1 && !IsDef(n)
    ensures Collect(n) == Collect(Children(n)[0])
  {
    var cs := Children(n);
    ChildrenSmaller(n);
    assert cs == [cs[0]];
    CollectOfOne(cs[0], n);
  }

  /** One node visited records what it records. */
  lemma CollectOfOne(a: Node, parent: Node)
    requires a < parent
    ensures CollectAll([a], parent) == Collect(a)
  {
    assert [a][..0] == [];
  }

  /** Two nodes visited in a row record what the first records, then what the second does. */
  lemma CollectOfPair(a: Node, b: Node, parent: Node)
    requires a < parent && b < parent
    ensures CollectAll([a, b], parent) == Collect(a) + Collect(b)
  {
    var s := [a, b];
    assert s[..1] == [a] && s[..2] == s;
    CollectOfOne(a, parent);
    CollectAllStep(s, parent, 1);
  }

  /** A container with two children records what the first records, then what the second does. */
  lemma CollectThroughTwo(n: Node)
    requires |Children(n)| == 2 && !IsDef(n)
    ensures Collect(n) == Collect(Children(n)[0]) + Collect(Children(n)[1])
  {
    var cs := Children(n);
    ChildrenSmaller(n);
    assert cs == [cs[0], cs[1]];
    CollectOfPair(cs[0], cs[1], n);
    assert Collect(n) == CollectAll(cs, n);
  }

  /** The top-level function and the method are recorded; the definitions nested in them are not. */
  method FindInFinderModule() returns (found: seq<Node>)
    ensures found == [SomeFunction, SomeMethod]
  {
    var finder := new FunctionFinder();
    finder.Visit(FinderModule);
    found := finder.functions;
    CollectThroughTwo(FinderModule);
    assert Children(SomeClass) == [SomeMethod];
    CollectThroughOne(SomeClass);
  }

  // ----- run, one definition at a time -----

  /** A name with a leading underscore gets the U101 message text. */
  lemma UnderscoreMessage()
    ensures Message("_a") == "U101 Unused argument '_a'"
  {
    assert ErrorCode("_a") == "U101";
  }

  /** `def foo(<name>): pass` with the given decorators, at `line`. */
  function PassDef(name: string, decorators: seq<Node>, line: int): Node {
    Def("foo", [P(name)], Pass, decorators, line)
  }

  /** A parameter that a `pass` body never reads is unused. */
  lemma UnusedOfPass(name: string, line: int)
    ensures UnusedArguments(PassDef(name, [], line)) == {name}
  {
    ReadsOfPass();
    ReadsOfDef("foo", [P(name)], Pass, line);
    NamesOfOne(name);
  }

  /** With every toggle off, `def foo(<name>): pass` reports its parameter at the definition. */
  lemma PassReported(name: string, line: int)
    ensures DefinitionOutcome(Defaults, PassDef(name, [], line))
            == Ok({Finding(line, 0, Message(name), "unused argument")})
  {
    var fn := PassDef(name, [], line);
    UnusedOfPass(name, line);
    SurvivorsUnfiltered(Defaults, fn.args, {name});
    assert Findings(fn, {name}) == {MakeFinding(fn, name)};
  }

  /** ignore_stubs exempts `def foo(a): pass`. */
  lemma PassIsStub(name: string, line: int)
    ensures DefinitionOutcome(Config(false, true, false), PassDef(name, [], line)) == Ok({})
  {
  }

  /** `@abstractmethod def foo(a): pass` reads the decorator's name, which is not its parameter. */
  lemma UnusedOfAbstract(name: string)
    requires name != "abstractmethod"
    ensures UnusedArguments(PassDef(name, [Read("abstractmethod")], 3)) == {name}
  {
    var fn := PassDef(name, [Read("abstractmethod")], 3);
    assert ReadNames(fn) == {"abstractmethod"} by {
      ChildrenOfDef("foo", [P(name)], Pass, [Read("abstractmethod")], 3);
      assert [Pass] + [Read("abstractmethod")] == [Pass, Read("abstractmethod")];
      ReadsThroughTwo(fn);
      ReadsOfPass();
      ReadsOfRead("abstractmethod");
    }
    assert ArgumentNames(fn.args) == {name} by {
      NamesOfOne(name);
    }
  }

  /** `@abstractmethod def foo(a): pass` is reported with every toggle off and exempt under
      ignore_abstract. */
  lemma AbstractExamples(name: string)
    requires name != "abstractmethod"
    ensures DefinitionOutcome(Defaults, PassDef(name, [Read("abstractmethod")], 3))
            == Ok({Finding(3, 0, Message(name), "unused argument")})
    ensures DefinitionOutcome(Config(true, false, false), PassDef(name, [Read("abstractmethod")], 3)) == Ok({})
  {
    var fn := PassDef(name, [Read("abstractmethod")], 3);
    UnusedOfAbstract(name);
    SurvivorsUnfiltered(Defaults, fn.args, {name});
    assert Findings(fn, {name}) == {MakeFinding(fn, name)};
    AbstractSkipped(Config(true, false, false), fn, 0);
  }

  /** The one variadic parameter of a `pass` definition is unused. */
  lemma VariadicUnused(fn: Node)
    requires fn.FunctionDef? && fn.body == [Pass] && fn.decoratorList == [] && fn.returnAnnotation == None
    requires fn.args.posonlyargs == [] && fn.args.args == [] && fn.args.kwonlyargs == []
    requires fn.args.kwDefaults == [] && fn.args.defaults == []
    requires fn.args.vararg.Some? != fn.args.kwarg.Some?
    requires fn.args.vararg.Some? ==> fn.args.vararg.value.annotation == None
    requires fn.args.kwarg.Some? ==> fn.args.kwarg.value.annotation == None
    ensures UnusedArguments(fn)
            == {if fn.args.vararg.Some? then fn.args.vararg.value.arg else fn.args.kwarg.value.arg}
  {
    assert Children(fn) == [Pass];
    ReadsThroughOne(fn);
    ReadsOfPass();
  }

  /** `def foo(*args): pass` and `def foo(**kwargs): pass`: under ignore_variadic_names the
      variadic parameter is not reported; otherwise it is. */
  lemma VariadicExamples(name: string)
    requires name != ""
    ensures var starred := FunctionDef("foo", Arguments([], [], Some(P(name)), [], [], None, []), [Pass], [], None, 2, 0);
            && DefinitionOutcome(Config(false, false, true), starred) == Ok({})
            && DefinitionOutcome(Defaults, starred) == Ok({Finding(2, 0, Message(name), "unused argument")})
    ensures var doubled := FunctionDef("foo", Arguments([], [], None, [], [], Some(P(name)), []), [Pass], [], None, 2, 0);
            && DefinitionOutcome(Config(false, false, true), doubled) == Ok({})
            && DefinitionOutcome(Defaults, doubled) == Ok({Finding(2, 0, Message(name), "unused argument")})
  {
    LoneVariadicOutcome(FunctionDef("foo", Arguments([], [], Some(P(name)), [], [], None, []), [Pass], [], None, 2, 0), name);
    LoneVariadicOutcome(FunctionDef("foo", Arguments([], [], None, [], [], Some(P(name)), []), [Pass], [], None, 2, 0), name);
  }

  /** A `pass` definition whose one parameter is a variadic `name`: dropped under
      ignore_variadic_names, reported with every toggle off. */
  lemma LoneVariadicOutcome(fn: Node, name: string)
    requires fn.FunctionDef? && fn.body == [Pass] && fn.decoratorList == [] && fn.returnAnnotation == None
    requires fn.args.posonlyargs == [] && fn.args.args == [] && fn.args.kwonlyargs == []
    requires fn.args.kwDefaults == [] && fn.args.defaults == []
    requires name != ""
    requires || (fn.args.vararg == Some(P(name)) && fn.args.kwarg == None)
             || (fn.args.vararg == None && fn.args.kwarg == Some(P(name)))
    ensures DefinitionOutcome(Config(false, false, true), fn) == Ok({})
    ensures DefinitionOutcome(Defaults, fn) == Ok({MakeFinding(fn, name)})
  {
    VariadicUnused(fn);
    SurvivorsUnfiltered(Defaults, fn.args, {name});
    assert Findings(fn, {name}) == {MakeFinding(fn, name)};
    var cfg := Config(false, false, true);
    assert Reported(cfg, fn.args, name) == Ok(false);
    assert Survivors(cfg, fn.args, {name}) == {};
    assert Findings(fn, {}) == {};
  }

  /** `@a @d() def foo(<name>): pass` under ignore_abstract and ignore_stubs: `d()` raises before
      any `abstractmethod` token, so the run fails there rather than skipping a stub. */
  lemma CalledDecoratorFault(name: string)
    ensures DefinitionOutcome(Config(true, true, false), PassDef(name, [Read("a"), Call(Read("d"), [])], 2))
            == Err(CalleeHasNoAttr)
  {
    var ds := [Read("a"), Call(Read("d"), [])];
    assert ResolveAll(ds) == Yielded(["a"], Some(CalleeHasNoAttr)) by {
      assert ds[1..] == [Call(Read("d"), [])];
    }
    AbstractFaultRaised(Config(true, true, false), PassDef(name, ds, 2));
  }

  /** Under ignore_variadic_names, a definition without `**kwargs` and with an unused ordinary
      parameter raises where it reads the missing `**kwarg`. */
  lemma MissingKwargExample(name: string)
    ensures DefinitionOutcome(Config(false, false, true), PassDef(name, [], 2)) == Err(MissingKwarg)
  {
    UnusedOfPass(name, 2);
    assert Reported(Config(false, false, true), Plain([P(name)]), name) == Err(MissingKwarg);
  }

  // ----- run, whole modules -----

  /** A run over a single definition emits exactly that definition's findings. */
  lemma EmitsSingle(cfg: Config, d: Node, out: seq<Finding>)
    requires Emits(cfg, [d], out)
    ensures IsDef(d) && DefinitionOutcome(cfg, d).Ok?
    ensures multiset(out) == multiset(DefinitionOutcome(cfg, d).value)
  {
    var k :| 0 <= k <= |out| && Emits(cfg, [], out[..k])
             && multiset(out[k..]) == multiset(DefinitionOutcome(cfg, d).value);
    assert out[k..] == out;
  }

  /** `def foo(_a): pass`: one U101 finding at the definition. */
  method RunUnderscore() returns (r: RunOutcome)
    ensures r == Completed([Finding(2, 0, "U101 Unused argument '_a'", "unused argument")])
  {
    var fn := PassDef("_a", [], 2);
    var plugin := new Plugin(Module([fn]));
    CollectThroughOne(Module([fn]));
    DefaultsReportEveryUnused(fn);
    r := plugin.Run(Defaults);
    RunSingle(Defaults, Module([fn]), fn, r);
    PassEmits("_a", 2, r.findings);
    UnderscoreMessage();
  }

  /** A run over a module holding one definition that raises nothing completes, emitting that
      definition's findings. */
  lemma RunSingle(cfg: Config, tree: Node, d: Node, r: RunOutcome)
    requires Collect(tree) == [d] && IsDef(d) && DefinitionOutcome(cfg, d).Ok?
    requires r.Completed? <==> forall x :: x in Collect(tree) ==> DefinitionOutcome(cfg, x).Ok?
    requires r.Completed? ==> Emits(cfg, Collect(tree), r.findings)
    ensures r.Completed? && Emits(cfg, [d], r.findings)
  {
  }

  /** With every toggle off, a run over `def foo(<name>): pass` alone emits its one finding. */
  lemma PassEmits(name: string, line: int, out: seq<Finding>)
    requires Emits(Defaults, [PassDef(name, [], line)], out)
    ensures out == [Finding(line, 0, Message(name), "unused argument")]
  {
    var f := Finding(line, 0, Message(name), "unused argument");
    PassReported(name, line);
    EmitsSingle(Defaults, PassDef(name, [], line), out);
    assert multiset({f}) == multiset{f};
    SingletonListing(out, f);
  }

  /** The only listing of a one-element multiset is the one-element sequence. */
  lemma SingletonListing<T>(out: seq<T>, x: T)
    requires multiset(out) == multiset{x}
    ensures out == [x]
  {
    assert |out| == 1 && out[0] in multiset(out);
  }

  /** `def cool(a):` holding `def inner(c): a()` */
  function NestedCaller(): Node {
    Def("cool", [P("a")], Def("inner", [P("c")], Expr(Call(Read("a"), [])), [], 4), [], 3)
  }

  /** `a()` reads `a`. */
  lemma ReadsOfCall(a: string)
    ensures ReadNames(Expr(Call(Read(a), []))) == {a}
  {
    ReadsOfRead(a);
    ReadsThroughOne(Call(Read(a), []));
    ReadsThroughOne(Expr(Call(Read(a), [])));
  }

  /** The call in the inner definition uses `a`; `c` is not a parameter of `cool`. */
  lemma UnusedOfNestedCaller()
    ensures UnusedArguments(NestedCaller()) == {}
  {
    var call := Expr(Call(Read("a"), []));
    assert ReadNames(NestedCaller()) == {"a"} by {
      ReadsOfCall("a");
      ReadsOfDef("inner", [P("c")], call, 4);
      ReadsOfDef("cool", [P("a")], Def("inner", [P("c")], call, [], 4), 3);
    }
    assert ArgumentNames(NestedCaller().args) == {"a"} by {
      NamesOfOne("a");
    }
  }

  /** With every toggle off, `cool` yields no finding. */
  lemma NestedCallerOutcome()
    ensures DefinitionOutcome(Defaults, NestedCaller()) == Ok({})
  {
    UnusedOfNestedCaller();
    DefaultsReportEveryUnused(NestedCaller());
  }

  /** Only `cool` is collected, and it uses its one parameter, so the run reports nothing. */
  method RunNestedCall() returns (r: RunOutcome)
    ensures r == Completed([])
  {
    var cool := NestedCaller();
    var plugin := new Plugin(Module([cool]));
    CollectThroughOne(Module([cool]));
    NestedCallerOutcome();
    r := plugin.Run(Defaults);
    RunSingle(Defaults, Module([cool]), cool, r);
    EmitsSingle(Defaults, cool, r.findings);
    assert multiset(r.findings) == multiset{};
  }
}
