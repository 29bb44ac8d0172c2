/** The plugin's entry point (`Plugin.run`): collect the definitions, skip those the toggles
    exempt, and emit one finding per unused argument that survives the variadic-name filter. */
module Lint {
  import opened Outcomes
  import opened Syntax
  import opened Collector
  import opened Usage
  import opened Decorators

  /** The three class-level toggles, fixed for a run. */
  datatype Config = Config(ignoreAbstract: bool, ignoreStubs: bool, ignoreVariadicNames: bool)

  /** All toggles off, as the class attributes are declared. */
  const Defaults := Config(false, false, false)

  /** One reported tuple: (line number, column offset, message text, check name). */
  datatype Finding = Finding(line: int, col: int, text: string, check: string)

  /** U101 for names the author marked as intentionally unused with a leading underscore. */
  function ErrorCode(name: string): (r: string)
    ensures r == "U101" <==> |name| > 0 && name[0] == '_'
    ensures r == "U100" || r == "U101"
  {
    if |name| > 0 && name[0] == '_' then "U101" else "U100"
  }

  /** `"{error_code} Unused argument '{name}'"`: the code, a fixed 18-character phrase, the name
      between single quotes. */
  function Message(name: string): (r: string)
    ensures |r| == |name| + 23 && r[..4] == ErrorCode(name)
  {
    ErrorCode(name) + " Unused argument '" + name + "'"
  }

  /** The full message format: the error code, the phrase ` Unused argument '`, the name and a
      closing quote. */
  lemma MessageText(name: string)
    ensures var m := Message(name);
            && m[..4] == ErrorCode(name) && m[4..22] == " Unused argument '"
            && m[22..|m| - 1] == name && m[|m| - 1] == '\''
  {
  }

  /** The argument name a message text names (the inverse of Message). */
  function MessageName(text: string): string {
    if |text| < 23 then "" else text[22..|text| - 1]
  }

  /** The name can be read back from the message, and the code is U101 exactly for names that
      start with an underscore. */
  lemma MessageRoundTrip(name: string)
    ensures MessageName(Message(name)) == name
    ensures Message(name)[..4] == "U101" <==> |name| > 0 && name[0] == '_'
    ensures Message(name)[..4] == "U100" <==> !(|name| > 0 && name[0] == '_')
  {
    var m := Message(name);
    assert |m| == 23 + |name|;
    assert m[22..|m| - 1] == name;
    assert m[..4] == ErrorCode(name);
  }

  /** The tuple reported for an unused `name` of `fn`: it carries the definition's position. */
  function MakeFinding(fn: Node, name: string): (r: Finding)
    requires IsDef(fn)
    ensures r.line == fn.lineno && r.col == fn.colOffset && r.check == "unused argument"
    ensures MessageName(r.text) == name
  {
    MessageRoundTrip(name);
    Finding(fn.lineno, fn.colOffset, Message(name), "unused argument")
  }

  /** Distinct names give distinct findings. */
  lemma MakeFindingInjective(fn: Node, a: string, b: string)
    requires IsDef(fn) && MakeFinding(fn, a) == MakeFinding(fn, b)
    ensures a == b
  {
    MessageRoundTrip(a);
    MessageRoundTrip(b);
  }

  /** The findings for a set of names of one definition. */
  function Findings(fn: Node, names: set<string>): (r: set<Finding>)
    requires IsDef(fn)
    ensures forall name :: name in names ==> MakeFinding(fn, name) in r
  {
    set name | name in names :: MakeFinding(fn, name)
  }

  /** Every finding carries the definition's position and the check name, and names one of the
      given names; every given name has its finding. */
  lemma FindingsExactly(fn: Node, names: set<string>)
    requires IsDef(fn)
    ensures forall f :: f in Findings(fn, names) ==>
              f.line == fn.lineno && f.col == fn.colOffset && f.check == "unused argument"
              && MessageName(f.text) in names
    ensures forall name :: name in names ==> MakeFinding(fn, name) in Findings(fn, names)
  {
    forall name | name in names ensures MessageName(MakeFinding(fn, name).text) == name {
      MessageRoundTrip(name);
    }
  }

  /** Adding a name adds exactly its finding, which was not there before. */
  lemma FindingsAdd(fn: Node, names: set<string>, name: string)
    requires IsDef(fn) && name !in names
    ensures MakeFinding(fn, name) !in Findings(fn, names)
    ensures Findings(fn, names + {name}) == Findings(fn, names) + {MakeFinding(fn, name)}
  {
  }

  /** Exactly one finding per name. */
  lemma {:induction false} FindingsCount(fn: Node, names: set<string>)
    requires IsDef(fn)
    ensures |Findings(fn, names)| == |names|
    decreases names
  {
    if names != {} {
      var name :| name in names;
      var rest := names - {name};
      assert rest + {name} == names;
      FindingsCount(fn, rest);
      FindingsAdd(fn, rest, name);
      AddNewCount(Findings(fn, rest), MakeFinding(fn, name), Findings(fn, names));
    }
  }

  /** Adding an element new to a set adds one to its size. */
  lemma AddNewCount<T>(s: set<T>, x: T, t: set<T>)
    requires x !in s && t == s + {x}
    ensures |t| == |s| + 1
  {
  }

  /** The stub test of `run`: a body of exactly one `pass`, or of exactly one expression statement
      `...`. A Lambda's body is one expression and has no length. */
  function IsStub(fn: Node): (r: Result<bool>)
    requires IsDef(fn)
    ensures r.Err? <==> fn.Lambda?
    ensures r == Ok(true) <==> !fn.Lambda? && (fn.body == [Pass] || fn.body == [Expr(Ellipsis)])
  {
    if fn.Lambda? then Err(LambdaBodyHasNoLength)
    else
      assert |fn.body| == 1 ==> fn.body == [fn.body[0]];
      Ok(|fn.body| == 1 && (fn.body[0].Pass? || (fn.body[0].Expr? && fn.body[0].exprValue.Ellipsis?)))
  }

  /** Whether `run` skips the whole definition: the abstract test first, then the stub test. */
  function Skipped(cfg: Config, fn: Node): (r: Result<bool>)
    requires IsDef(fn)
    ensures !cfg.ignoreAbstract && !cfg.ignoreStubs ==> r == Ok(false)
    ensures r == Ok(true) ==> || (cfg.ignoreAbstract && AnyAbstract(DecoratorNames(fn)) == Ok(true))
                              || (cfg.ignoreStubs && IsStub(fn) == Ok(true))
  {
    var isAbstract := if cfg.ignoreAbstract then AnyAbstract(DecoratorNames(fn)) else Ok(false);
    if isAbstract != Ok(false) then isAbstract
    else if cfg.ignoreStubs then IsStub(fn)
    else Ok(false)
  }

  /** Whether an unused `name` is reported. Under ignore_variadic_names the `*vararg` name is
      dropped first; any other name then reads the `**kwarg`, which fails when there is none. */
  function Reported(cfg: Config, a: Arguments, name: string): (r: Result<bool>)
    ensures !cfg.ignoreVariadicNames ==> r == Ok(true)
    ensures r == Ok(false) ==> IsVariadicName(a, name)
    ensures r == Ok(true) && cfg.ignoreVariadicNames ==> !IsVariadicName(a, name)
    ensures r.Err? ==> r.fault == MissingKwarg && a.kwarg.None?
  {
    if !cfg.ignoreVariadicNames then Ok(true)
    else if a.vararg.Some? && a.vararg.value.arg == name then Ok(false)
    else if a.kwarg.None? then Err(MissingKwarg)
    else Ok(!(a.kwarg.value.arg != "" && a.kwarg.value.arg == name))
  }

  /** The unused names that `run` reports. */
  function Survivors(cfg: Config, a: Arguments, names: set<string>): (r: set<string>)
    ensures cfg.ignoreVariadicNames ==> forall name :: name in r ==> !IsVariadicName(a, name)
  {
    set name | name in names && Reported(cfg, a, name) == Ok(true)
  }

  /** Considering one more name adds it to the survivors exactly when it is reported. */
  lemma SurvivorsAdd(cfg: Config, a: Arguments, names: set<string>, name: string)
    ensures Survivors(cfg, a, names + {name})
            == Survivors(cfg, a, names) + (if Reported(cfg, a, name) == Ok(true) then {name} else {})
  {
  }

  /** Without ignore_variadic_names every unused name is reported. */
  lemma SurvivorsUnfiltered(cfg: Config, a: Arguments, names: set<string>)
    requires !cfg.ignoreVariadicNames
    ensures Survivors(cfg, a, names) == names
  {
    assert forall name :: name in names ==> Reported(cfg, a, name) == Ok(true);
  }

  /** What `run` produces for one definition: the set of its findings, or the fault it raises. */
  function DefinitionOutcome(cfg: Config, fn: Node): (r: Result<set<Finding>>)
    requires IsDef(fn)
    ensures Skipped(cfg, fn) == Ok(true) ==> r == Ok({})
    ensures r.Err? ==> Skipped(cfg, fn) == Err(r.fault) || (Skipped(cfg, fn) == Ok(false) && r.fault == MissingKwarg)
  {
    var skipped := Skipped(cfg, fn);
    if skipped.Err? then Err(skipped.fault)
    else if skipped.value then Ok({})
    else
      var unused := UnusedArguments(fn);
      if exists name :: name in unused && Reported(cfg, fn.args, name).Err? then Err(MissingKwarg)
      else Ok(Findings(fn, Survivors(cfg, fn.args, unused)))
  }

  /** Every finding of a definition carries the definition's position and the check name, names
      an unused argument that survives the variadic filter, and its text is that name's message;
      there is exactly one finding per surviving name. */
  lemma FindingsOfDefinition(cfg: Config, fn: Node)
    requires IsDef(fn) && DefinitionOutcome(cfg, fn).Ok? && Skipped(cfg, fn) == Ok(false)
    ensures var fs := DefinitionOutcome(cfg, fn).value;
            && |fs| == |Survivors(cfg, fn.args, UnusedArguments(fn))|
            && forall f :: f in fs ==>
                 && f.line == fn.lineno && f.col == fn.colOffset && f.check == "unused argument"
                 && MessageName(f.text) in UnusedArguments(fn)
                 && Reported(cfg, fn.args, MessageName(f.text)) == Ok(true)
                 && f.text == Message(MessageName(f.text))
  {
    var survivors := Survivors(cfg, fn.args, UnusedArguments(fn));
    FindingsCount(fn, survivors);
    FindingsExactly(fn, survivors);
    forall name | name in survivors ensures MessageName(Message(name)) == name {
      MessageRoundTrip(name);
    }
  }

  /** With every toggle off, each unused argument yields exactly one finding and nothing else is
      reported. */
  lemma DefaultsReportEveryUnused(fn: Node)
    requires IsDef(fn)
    ensures DefinitionOutcome(Defaults, fn).Ok?
    ensures var fs := DefinitionOutcome(Defaults, fn).value;
            && |fs| == |UnusedArguments(fn)|
            && (forall name :: name in UnusedArguments(fn) ==> MakeFinding(fn, name) in fs)
            && (forall f :: f in fs ==> MessageName(f.text) in UnusedArguments(fn))
  {
    var unused := UnusedArguments(fn);
    assert Skipped(Defaults, fn) == Ok(false);
    assert forall name :: Reported(Defaults, fn.args, name) == Ok(true);
    SurvivorsUnfiltered(Defaults, fn.args, unused);
    assert DefinitionOutcome(Defaults, fn) == Ok(Findings(fn, unused));
    FindingsCount(fn, unused);
    FindingsExactly(fn, unused);
  }

  /** Under ignore_abstract, a function whose decorators yield `abstractmethod` before any of them
      fails to resolve reports nothing, whatever its body and arguments. */
  lemma AbstractSkipped(cfg: Config, fn: Node, k: nat)
    requires cfg.ignoreAbstract && (fn.FunctionDef? || fn.AsyncFunctionDef?)
    requires k < |fn.decoratorList| && AbstractAt(fn.decoratorList, k)
    ensures DefinitionOutcome(cfg, fn) == Ok({})
  {
    AbstractExactly(fn.decoratorList);
  }

  /** Under ignore_abstract, a function whose decorators raise before any of them yields
      `abstractmethod` fails with that fault, before the stub test is reached: whatever
      ignore_stubs says, the definition neither is skipped nor reports anything. */
  lemma AbstractFaultRaised(cfg: Config, fn: Node)
    requires cfg.ignoreAbstract && (fn.FunctionDef? || fn.AsyncFunctionDef?)
    requires "abstractmethod" !in ResolveAll(fn.decoratorList).items && ResolveAll(fn.decoratorList).stop.Some?
    ensures DefinitionOutcome(cfg, fn) == Err(ResolveAll(fn.decoratorList).stop.value)
  {
  }

  /** A Lambda has no decorator list and no statement list: either toggle that inspects them makes
      the run fail on the first Lambda it reaches. */
  lemma LambdaFaults(cfg: Config, fn: Node)
    requires fn.Lambda?
    ensures cfg.ignoreAbstract ==> DefinitionOutcome(cfg, fn) == Err(LambdaHasNoDecoratorList)
    ensures !cfg.ignoreAbstract && cfg.ignoreStubs ==> DefinitionOutcome(cfg, fn) == Err(LambdaBodyHasNoLength)
  {
  }

  /** ignore_stubs exempts exactly the bodies `pass` and `...` and changes nothing else: a body
      such as `raise NotImplementedError` is reported as with every toggle off. */
  lemma StubsExemptExactly(fn: Node)
    requires fn.FunctionDef? || fn.AsyncFunctionDef?
    ensures DefinitionOutcome(Config(false, true, false), fn)
            == if fn.body == [Pass] || fn.body == [Expr(Ellipsis)] then Ok({}) else DefinitionOutcome(Defaults, fn)
  {
    var cfg := Config(false, true, false);
    var stub := fn.body == [Pass] || fn.body == [Expr(Ellipsis)];
    assert IsStub(fn) == Ok(stub) by {
      if |fn.body| == 1 {
        assert fn.body == [fn.body[0]];
      }
    }
    assert Skipped(cfg, fn) == Ok(stub) && Skipped(Defaults, fn) == Ok(false);
    if !stub {
      var unused := UnusedArguments(fn);
      assert forall name :: Reported(cfg, fn.args, name) == Reported(Defaults, fn.args, name) == Ok(true);
      SurvivorsUnfiltered(cfg, fn.args, unused);
      SurvivorsUnfiltered(Defaults, fn.args, unused);
    }
  }

  /** A definition that neither toggle skips is reported as with both skip toggles off: passing
      the abstract test and the stub test raises nothing and removes nothing. */
  lemma NotSkippedOutcome(cfg: Config, fn: Node)
    requires IsDef(fn)
    requires cfg.ignoreAbstract ==> AnyAbstract(DecoratorNames(fn)) == Ok(false)
    requires cfg.ignoreStubs ==> IsStub(fn) == Ok(false)
    ensures Skipped(cfg, fn) == Ok(false)
    ensures DefinitionOutcome(cfg, fn) == DefinitionOutcome(Config(false, false, cfg.ignoreVariadicNames), fn)
  {
    var plain := Config(false, false, cfg.ignoreVariadicNames);
    assert Skipped(cfg, fn) == Ok(false) == Skipped(plain, fn);
    assert forall name :: Reported(cfg, fn.args, name) == Reported(plain, fn.args, name);
    assert Survivors(cfg, fn.args, UnusedArguments(fn)) == Survivors(plain, fn.args, UnusedArguments(fn));
  }

  /** Under ignore_stubs a function whose body is `pass` or `...` reports nothing, whatever the
      other toggles say, unless the abstract test before it raises. */
  lemma StubSkipped(cfg: Config, fn: Node)
    requires (fn.FunctionDef? || fn.AsyncFunctionDef?) && cfg.ignoreStubs
    requires fn.body == [Pass] || fn.body == [Expr(Ellipsis)]
    requires cfg.ignoreAbstract ==> AnyAbstract(DecoratorNames(fn)).Ok?
    ensures DefinitionOutcome(cfg, fn) == Ok({})
  {
  }

  /** Under ignore_abstract, a function whose decorators all resolve, none to `abstractmethod`, has
      the outcome it has with ignore_abstract off. */
  lemma NonAbstractUnaffected(cfg: Config, fn: Node)
    requires cfg.ignoreAbstract && (fn.FunctionDef? || fn.AsyncFunctionDef?)
    requires forall i :: 0 <= i < |fn.decoratorList| ==>
               DecoratorToken(fn.decoratorList[i]).Ok? && DecoratorToken(fn.decoratorList[i]).value != "abstractmethod"
    ensures DefinitionOutcome(cfg, fn) == DefinitionOutcome(cfg.(ignoreAbstract := false), fn)
  {
    var off := cfg.(ignoreAbstract := false);
    var tokens := ResolveAll(fn.decoratorList);
    ResolveAllTotal(fn.decoratorList);
    assert "abstractmethod" !in tokens.items by {
      forall i | 0 <= i < |tokens.items| ensures tokens.items[i] != "abstractmethod" {
        assert DecoratorToken(fn.decoratorList[i]) == Ok(tokens.items[i]);
      }
    }
    assert AnyAbstract(DecoratorNames(fn)) == Ok(false);
    assert Skipped(cfg, fn) == Skipped(off, fn);
    assert forall name :: Reported(cfg, fn.args, name) == Reported(off, fn.args, name);
    assert Survivors(cfg, fn.args, UnusedArguments(fn)) == Survivors(off, fn.args, UnusedArguments(fn));
  }

  /** Under ignore_variadic_names no finding names the `*vararg` or the `**kwarg`. */
  lemma VariadicNamesDropped(cfg: Config, fn: Node)
    requires IsDef(fn) && cfg.ignoreVariadicNames && DefinitionOutcome(cfg, fn).Ok?
    ensures forall f :: f in DefinitionOutcome(cfg, fn).value ==> !IsVariadicName(fn.args, MessageName(f.text))
  {
    if Skipped(cfg, fn) == Ok(false) {
      var survivors := Survivors(cfg, fn.args, UnusedArguments(fn));
      assert DefinitionOutcome(cfg, fn).value == Findings(fn, survivors);
      FindingsExactly(fn, survivors);
    }
  }

  /** Conversely, when there is a `**kwarg`, ignore_variadic_names drops exactly the `*vararg` and
      `**kwarg` names and keeps every other unused name. */
  lemma VariadicDropsOnlyVariadic(cfg: Config, a: Arguments, names: set<string>)
    requires cfg.ignoreVariadicNames && a.kwarg.Some?
    ensures Survivors(cfg, a, names) == set name | name in names && !IsVariadicName(a, name)
  {
  }

  /** Under ignore_variadic_names, a definition with a `**kwarg` that the toggles do not skip reports
      exactly its unused arguments other than the `*vararg` and the `**kwarg`. */
  lemma VariadicKeepsOthers(cfg: Config, fn: Node)
    requires IsDef(fn) && cfg.ignoreVariadicNames && fn.args.kwarg.Some? && Skipped(cfg, fn) == Ok(false)
    ensures DefinitionOutcome(cfg, fn)
            == Ok(Findings(fn, set name | name in UnusedArguments(fn) && !IsVariadicName(fn.args, name)))
  {
    VariadicDropsOnlyVariadic(cfg, fn.args, UnusedArguments(fn));
  }

  /** `name` is the `*vararg` or the (non-empty) `**kwarg` name. */
  predicate IsVariadicName(a: Arguments, name: string) {
    || (a.vararg.Some? && a.vararg.value.arg == name)
    || (a.kwarg.Some? && a.kwarg.value.arg != "" && a.kwarg.value.arg == name)
  }

  /** Under ignore_variadic_names, a definition the toggles do not skip fails exactly when it has
      no `**kwarg` and some unused argument other than its `*vararg`. */
  lemma MissingKwargExactly(cfg: Config, fn: Node)
    requires IsDef(fn) && cfg.ignoreVariadicNames && Skipped(cfg, fn) == Ok(false)
    ensures DefinitionOutcome(cfg, fn).Err?
            <==> fn.args.kwarg.None?
                 && exists name :: name in UnusedArguments(fn)
                                   && !(fn.args.vararg.Some? && fn.args.vararg.value.arg == name)
    ensures DefinitionOutcome(cfg, fn).Err? ==> DefinitionOutcome(cfg, fn).fault == MissingKwarg
  {
    if DefinitionOutcome(cfg, fn).Err? {
      var name :| name in UnusedArguments(fn) && Reported(cfg, fn.args, name).Err?;
    }
    if fn.args.kwarg.None? && exists name :: name in UnusedArguments(fn)
                                            && !(fn.args.vararg.Some? && fn.args.vararg.value.arg == name) {
      var name :| name in UnusedArguments(fn) && !(fn.args.vararg.Some? && fn.args.vararg.value.arg == name);
      assert Reported(cfg, fn.args, name).Err?;
    }
  }

  /** `out` is what `run` yields for the definitions `defs`, all of which succeed: for each
      definition in turn, its findings in some order (Python set order). */
  ghost predicate Emits(cfg: Config, defs: seq<Node>, out: seq<Finding>)
    decreases |defs|
  {
    if defs == [] then out == []
    else
      var d := defs[|defs| - 1];
      && IsDef(d)
      && DefinitionOutcome(cfg, d).Ok?
      && exists k :: 0 <= k <= |out| && Emits(cfg, defs[..|defs| - 1], out[..k])
                     && multiset(out[k..]) == multiset(DefinitionOutcome(cfg, d).value)
  }

  /** Appending the findings of the next definition extends the emission by that definition. */
  lemma EmitsExtend(cfg: Config, defs: seq<Node>, i: nat, out: seq<Finding>, segment: seq<Finding>)
    requires i < |defs| && Emits(cfg, defs[..i], out) && IsDef(defs[i])
    requires DefinitionOutcome(cfg, defs[i]).Ok?
    requires multiset(segment) == multiset(DefinitionOutcome(cfg, defs[i]).value)
    ensures Emits(cfg, defs[..i + 1], out + segment)
  {
    var defs', out' := defs[..i + 1], out + segment;
    assert defs'[..|defs'| - 1] == defs[..i] && defs'[|defs'| - 1] == defs[i];
    assert out'[..|out|] == out && out'[|out|..] == segment;
    var k := |out|;
    assert 0 <= k <= |out'| && Emits(cfg, defs'[..|defs'| - 1], out'[..k])
           && multiset(out'[k..]) == multiset(DefinitionOutcome(cfg, defs'[|defs'| - 1]).value);
  }

  /** Only definitions that raise nothing contribute to an emission. */
  lemma {:induction false} EmitsOnlySuccesses(cfg: Config, defs: seq<Node>, out: seq<Finding>)
    requires Emits(cfg, defs, out)
    ensures forall d :: d in defs ==> IsDef(d) && DefinitionOutcome(cfg, d).Ok?
    decreases |defs|
  {
    if defs != [] {
      var k :| 0 <= k <= |out| && Emits(cfg, defs[..|defs| - 1], out[..k])
                && multiset(out[k..]) == multiset(DefinitionOutcome(cfg, defs[|defs| - 1]).value);
      EmitsOnlySuccesses(cfg, defs[..|defs| - 1], out[..k]);
      assert forall d :: d in defs ==> d in defs[..|defs| - 1] || d == defs[|defs| - 1];
    }
  }

  /** Every name of `taken` passes the `**kwarg` read. */
  ghost predicate Decided(cfg: Config, a: Arguments, taken: set<string>) {
    forall name :: name in taken ==> Reported(cfg, a, name).Ok?
  }

  /** A sequence listing a set, extended by an element new to the set, lists the extended set. */
  lemma AppendNew<T>(segment: seq<T>, s: set<T>, x: T)
    requires multiset(segment) == multiset(s) && x !in s
    ensures multiset(segment + [x]) == multiset(s + {x})
  {
    assert multiset(s + {x}) == multiset(s) + multiset{x};
  }

  /** Considering one more name appends its finding exactly when it is reported. */
  lemma FindingsStep(cfg: Config, fn: Node, before: set<string>, name: string, segment: seq<Finding>)
    requires IsDef(fn) && name !in before
    requires multiset(segment) == multiset(Findings(fn, Survivors(cfg, fn.args, before)))
    ensures multiset(segment + if Reported(cfg, fn.args, name) == Ok(true) then [MakeFinding(fn, name)] else [])
            == multiset(Findings(fn, Survivors(cfg, fn.args, before + {name})))
  {
    var survivors := Survivors(cfg, fn.args, before);
    SurvivorsAdd(cfg, fn.args, before, name);
    if Reported(cfg, fn.args, name) == Ok(true) {
      FindingsAdd(fn, survivors, name);
      AppendNew(segment, Findings(fn, survivors), MakeFinding(fn, name));
    } else {
      assert segment + [] == segment;
    }
  }

  /** The result of iterating `run`'s generator to its end. */
  datatype RunOutcome =
    | Completed(findings: seq<Finding>)
    | Crashed(emitted: seq<Finding>, fault: Fault)   // what was yielded before the fault

  /** The inner loop of `run`: the unused names one by one, in whatever order the set yields
      them. Nothing is yielded before a fault, since every name that is not the `*vararg` reads
      the `**kwarg` before it is reported. */
  method EmitUnused(cfg: Config, fn: Node, unused: set<string>) returns (r: Result<seq<Finding>>)
    requires IsDef(fn)
    ensures r.Err? <==> exists name :: name in unused && Reported(cfg, fn.args, name).Err?
    ensures r.Err? ==> r.fault == MissingKwarg
    ensures r.Ok? ==> multiset(r.value) == multiset(Findings(fn, Survivors(cfg, fn.args, unused)))
  {
    var rest := unused;
    var segment: seq<Finding> := [];
    while rest != {}
      invariant rest <= unused
      invariant Decided(cfg, fn.args, unused - rest)
      invariant multiset(segment) == multiset(Findings(fn, Survivors(cfg, fn.args, unused - rest)))
      decreases rest
    {
      ghost var taken := unused - rest;
      var name :| name in rest;
      rest := rest - {name};
      var verdict := Reported(cfg, fn.args, name);
      if verdict.Err? {
        return Err(verdict.fault);
      }
      ghost var before := segment;
      if verdict.value {
        segment := segment + [MakeFinding(fn, name)];
      }
      assert taken + {name} == unused - rest;
      assert multiset(segment) == multiset(Findings(fn, Survivors(cfg, fn.args, unused - rest))) by {
        assert segment == before + if Reported(cfg, fn.args, name) == Ok(true) then [MakeFinding(fn, name)] else [];
        FindingsStep(cfg, fn, taken, name, before);
      }
    }
    assert unused - rest == unused;
    return Ok(segment);
  }

  /** One pass of `run`'s loop body: the abstract toggle, the stub toggle, then the unused names. */
  method EmitDefinition(cfg: Config, fn: Node) returns (r: Result<seq<Finding>>)
    requires IsDef(fn)
    ensures r.Err? ==> DefinitionOutcome(cfg, fn) == Err(r.fault)
    ensures r.Ok? ==> DefinitionOutcome(cfg, fn).Ok?
                      && multiset(r.value) == multiset(DefinitionOutcome(cfg, fn).value)
  {
    if cfg.ignoreAbstract {
      var isAbstract := AnyAbstract(DecoratorNames(fn));
      if isAbstract.Err? {
        return Err(isAbstract.fault);
      }
      if isAbstract.value {
        return Ok([]);
      }
    }
    if cfg.ignoreStubs {
      if fn.Lambda? {
        return Err(LambdaBodyHasNoLength);
      }
      if |fn.body| == 1 {
        var statement := fn.body[0];
        if statement.Pass? || (statement.Expr? && statement.exprValue.Ellipsis?) {
          return Ok([]);
        }
      }
    }
    assert Skipped(cfg, fn) == Ok(false);
    var unused := GetUnusedArguments(fn);
    r := EmitUnused(cfg, fn, unused);
  }

  /** The plugin instance flake8 creates for one parsed module. */
  class Plugin {
    const tree: Node

    constructor(tree: Node)
      ensures this.tree == tree
    {
      this.tree := tree;
    }

    /** `run`: every collected definition in turn contributes its findings; the first definition
        that raises ends the run, after the findings of the definitions before it. */
    method Run(cfg: Config) returns (r: RunOutcome)
      ensures r.Completed? <==> forall d :: d in Collect(tree) ==> DefinitionOutcome(cfg, d).Ok?
      ensures r.Completed? ==> Emits(cfg, Collect(tree), r.findings)
      ensures r.Crashed? ==> exists i :: 0 <= i < |Collect(tree)|
                                         && Emits(cfg, Collect(tree)[..i], r.emitted)
                                         && DefinitionOutcome(cfg, Collect(tree)[i]) == Err(r.fault)
    {
      var finder := new FunctionFinder();
      finder.Visit(tree);
      var functions := finder.functions;
      var out: seq<Finding> := [];
      var i := 0;
      while i < |functions|
        invariant 0 <= i <= |functions|
        invariant functions == Collect(tree)
        invariant Emits(cfg, functions[..i], out)
      {
        var fn := functions[i];
        assert fn in functions;
        var emitted := EmitDefinition(cfg, fn);
        if emitted.Err? {
          return Crashed(out, emitted.fault);
        }
        EmitsExtend(cfg, functions, i, out, emitted.value);
        out := out + emitted.value;
        i := i + 1;
      }
      assert functions[..i] == functions;
      EmitsOnlySuccesses(cfg, functions, out);
      return Completed(out);
    }
  }
}
