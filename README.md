# flake8-unused-arguments, modelled in Dafny

A model of the flake8 plugin that reports function, async function and lambda parameters that are never read. It models the 1.0.0 plugin module `flake8_unused_arguments.py`, with its four stages:

- **Definition collector** (`FunctionFinder`, module `Collector`). A visitor that records every definition it reaches. It never descends into a definition it has recorded.
- **Parameter extractor** (`get_argument_names`, module `Parameters`). Gathers the names of the plain, `*vararg`, `**kwarg` and keyword-only parameters. Positional-only parameters are not gathered.
- **Usage detector** (`get_unused_arguments` and its `NameFinder` visitor, module `Usage`). Starts from the declared names and removes every name that a `Name` node in a Load or Del context refers to, anywhere in the definition, nested definitions included.
- **Plugin** (`Plugin.run`, module `Lint`). Applies the three toggles `ignore_abstract`, `ignore_stubs` and `ignore_variadic_names` to each collected definition, then yields one `(line, column, "U10x Unused argument '<name>'", "unused argument")` tuple per surviving name.

The parsed tree is the datatype `Syntax.Node`. `Syntax.Children` lists the sub-trees of a node in the order `ast.NodeVisitor.generic_visit` visits them, and both visitors recurse through it.

The places where the module raises instead of returning are the `Fault` values of `Outcomes`:

- an unsupported decorator shape (the `assert False` of `get_decorator_names`);
- a called decorator whose callee has no `.attr`;
- a lambda asked for its decorator list or its statement count;
- `function.args.kwarg.arg` read when there is no `**kwarg`.

Generators are modelled by the items they yield plus the fault that stops them (`Yielded`). This matters because `any(...)` stops early: an `abstractmethod` token that comes before a bad decorator still skips the definition.

Python's set iteration order is not modelled. The loop over the unused names picks any remaining name. Its contract states that the findings of one definition are a permutation of that definition's finding set, and that the segments come in collector order.

Classes and in-place state follow the source:

- `FunctionFinder` and `NameFinder` are classes whose visit methods append to or shrink their field. Each is proved against a function of the tree: `Collect`, `ReadNames`.
- `Plugin.Run` and `EmitUnused` are loops proved against `DefinitionOutcome`.
- The scenarios module writes programs from the plugin's test suite as syntax trees and states their outcomes as proved lemmas.

Where the code and the test suite (which targets later versions of the plugin) disagree, the model follows the code (see the end of this file).

## Model

| member | source | states |
|---|---|---|
| Collector.Collect | flake8_unused_arguments.py:111-125 | every recorded node is a function, async function or lambda |
| Collector.CollectExactly | flake8_unused_arguments.py:111-125 | a node is recorded iff it is a definition reachable from the root without passing through another definition (methods inside classes are recorded, definitions nested in a definition are not) |
| Collector.CollectAll | flake8_unused_arguments.py:111-125 | what the collector records in a sequence of siblings visited left to right; every recorded node is a definition |
| Collector.CollectAllExactly | flake8_unused_arguments.py:111-125 | the same characterisation for a sequence of siblings visited in turn |
| Collector.CollectAllStep | flake8_unused_arguments.py:111-125 | visiting one more sibling appends exactly what that sibling records |
| Collector.FunctionFinder.constructor | flake8_unused_arguments.py:114-116 | a new finder has recorded nothing |
| Collector.FunctionFinder.Visit | flake8_unused_arguments.py:118-125 | visiting a node appends exactly what `Collect` says it records, in visiting order |
| Collector.FunctionFinder.GenericVisit | flake8_unused_arguments.py:111-125 | visiting the children of a non-definition appends what they record, child after child |
| Parameters.ArgumentNames | flake8_unused_arguments.py:76-96 | the set of plain, `*vararg`, `**kwarg` and keyword-only parameter names; each of those parameters' names is in it |
| Parameters.ArgumentNamesAreDeclared | flake8_unused_arguments.py:76-96 | a name is gathered iff some plain, `*vararg`, `**kwarg` or keyword-only parameter declares it |
| Parameters.PositionalOnlyIgnored | flake8_unused_arguments.py:76-96 | changing the positional-only parameters never changes the names gathered |
| Parameters.GetArgumentNames | flake8_unused_arguments.py:76-96 | the set built up step by step equals the declared-name set, with the iff characterisation above |
| Usage.ReadNames | flake8_unused_arguments.py:63-71 | the names read anywhere in a subtree; a Name node alone reads its id unless it is assigned to |
| Usage.ReadNamesIn | flake8_unused_arguments.py:63-71 | the names read anywhere in a sequence of siblings; a single sibling reads what it reads |
| Usage.UnusedArguments | flake8_unused_arguments.py:59-73 | the unused names are a subset of the declared names |
| Usage.ReadNamesExactly | flake8_unused_arguments.py:63-71 | a name is read in a subtree iff some Name node within it refers to it in a Load or Del context |
| Usage.ReadHasReader | flake8_unused_arguments.py:63-71 | one level of that proof: a name read in a node has a reader within it |
| Usage.ReaderIsRead | flake8_unused_arguments.py:63-71 | the converse one level: a reader within a node makes the name read in it |
| Usage.ReadNamesInExactly | flake8_unused_arguments.py:63-71 | a name is read in a sequence of siblings iff some Name node within one of them reads it |
| Usage.ReadNamesInStep | flake8_unused_arguments.py:63-71 | reading one more sibling adds exactly the names it reads |
| Usage.UnusedExactly | flake8_unused_arguments.py:59-73 | a name is unused iff it is declared and no Name node anywhere in the definition (nested definitions included) reads it |
| Usage.StoreKeepsName | flake8_unused_arguments.py:64-66 | a declared name that only appears as an assignment target stays unused |
| Usage.LoadOrDelUsesName | flake8_unused_arguments.py:64-69 | any Load or Del reference within the definition marks the name as used |
| Usage.NameFinder.constructor | flake8_unused_arguments.py:59-63 | the finder starts from the given declared names |
| Usage.NameFinder.Visit | flake8_unused_arguments.py:63-71 | visiting a subtree removes from the still-unused set exactly the names read in it |
| Usage.NameFinder.VisitName | flake8_unused_arguments.py:64-69 | a Store reference leaves the set unchanged, and any other reference removes its id |
| Usage.NameFinder.GenericVisit | flake8_unused_arguments.py:63-71 | visiting the children removes exactly the names they read |
| Usage.NameFinder.VisitAll | flake8_unused_arguments.py:63-71 | visiting siblings in turn removes exactly the names they read |
| Usage.GetUnusedArguments | flake8_unused_arguments.py:59-73 | the result is the set of declared names that no Name node in the definition reads |
| Decorators.DecoratorToken | flake8_unused_arguments.py:101-108 | a decorator resolves iff it is a Name, an Attribute, or a Call of an Attribute; a Call of anything else fails reading `.attr`, any other shape fails the assertion |
| Decorators.DecoratorNames | flake8_unused_arguments.py:99-100 | a lambda fails at once for want of a decorator list; otherwise the tokens yielded are those of a prefix of the decorators, in order |
| Decorators.AnyAbstract | flake8_unused_arguments.py:27 | true iff an `abstractmethod` token is yielded; when none is, the generator's fault (if it raised) is raised again, and any fault returned is the generator's |
| Decorators.ResolveAll | flake8_unused_arguments.py:99-108 | the generator yields the tokens of a prefix of the decorators in order; it stops early only at the first decorator that fails, with that decorator's fault |
| Decorators.ResolveAllTotal | flake8_unused_arguments.py:99-108 | when every decorator resolves, one token per decorator is yielded, in order, with no fault |
| Decorators.AbstractExactly | flake8_unused_arguments.py:27 | `any(name == "abstractmethod" ...)` is true iff some decorator resolves to `abstractmethod` and every decorator before it resolves |
| Decorators.YieldedAbstract | flake8_unused_arguments.py:99-108 | a yielded `abstractmethod` token comes from a decorator all of whose predecessors resolve |
| Decorators.AbstractYielded | flake8_unused_arguments.py:99-108 | such a decorator's token is yielded at its position |
| Lint.ErrorCode | flake8_unused_arguments.py:49-52 | U101 iff the name starts with `_`, otherwise U100 |
| Lint.Message | flake8_unused_arguments.py:54 | the message text starts with the name's error code and is 23 characters longer than the name |
| Lint.MessageText | flake8_unused_arguments.py:54 | the message text is the name's error code, then ` Unused argument '`, then the name, then a closing `'` |
| Lint.MessageRoundTrip | flake8_unused_arguments.py:49-54 | the argument name can be read back from the message text; the code is U101 iff the name starts with `_`, U100 otherwise |
| Lint.MakeFinding | flake8_unused_arguments.py:46-56 | the tuple for one name carries the definition's line and column and the check name, and its text names that name |
| Lint.MakeFindingInjective | flake8_unused_arguments.py:46-56 | distinct names of one definition give distinct tuples |
| Lint.Findings | flake8_unused_arguments.py:46-56 | the set of tuples for a set of names of one definition; every name has its tuple in it |
| Lint.FindingsExactly | flake8_unused_arguments.py:46-56 | every tuple carries the definition's line, column and check name and names one of the names; every name has its tuple |
| Lint.FindingsAdd | flake8_unused_arguments.py:46-56 | one more name adds exactly its own tuple, which was not there before |
| Lint.FindingsCount | flake8_unused_arguments.py:46-56 | there is exactly one tuple per name |
| Lint.IsStub | flake8_unused_arguments.py:31-36 | fails on a lambda (no statement list); otherwise true iff the body is exactly `pass` or exactly `...` |
| Lint.Skipped | flake8_unused_arguments.py:27-36 | with both skip toggles off nothing is skipped; a skipped definition is abstract under ignore_abstract or a stub under ignore_stubs |
| Lint.Reported | flake8_unused_arguments.py:40-44 | without ignore_variadic_names every name is reported; a dropped name is the `*vararg` or the `**kwarg`, a reported one under the toggle is neither; it fails only when the `**kwarg` is missing |
| Lint.DefinitionOutcome | flake8_unused_arguments.py:27-56 | a skipped definition yields nothing; a fault is either the skip test's own fault or, for a definition that is not skipped, the missing-kwarg one |
| Lint.Survivors | flake8_unused_arguments.py:39-44 | under ignore_variadic_names no surviving name is the `*vararg` or a non-empty `**kwarg` name |
| Lint.SurvivorsAdd | flake8_unused_arguments.py:39-44 | considering one more name adds it iff it is reported |
| Lint.SurvivorsUnfiltered | flake8_unused_arguments.py:39-44 | without ignore_variadic_names every unused name survives |
| Lint.FindingsOfDefinition | flake8_unused_arguments.py:39-56 | for a definition that is not skipped and does not fail: one tuple per surviving unused name, each at the definition's position, naming an unused and reported argument, with that name's message |
| Lint.DefaultsReportEveryUnused | flake8_unused_arguments.py:14-16 | with every toggle off nothing fails, each unused argument yields exactly one tuple, and nothing else is yielded |
| Lint.AbstractSkipped | flake8_unused_arguments.py:27-28 | under ignore_abstract, a function with an `abstractmethod` decorator preceded only by resolvable decorators yields nothing, whatever its body |
| Lint.AbstractFaultRaised | flake8_unused_arguments.py:27-36 | under ignore_abstract, a function whose decorators raise before yielding `abstractmethod` fails with that fault whatever ignore_stubs says: the abstract test runs before the stub test |
| Lint.LambdaFaults | flake8_unused_arguments.py:27-31 | a lambda makes ignore_abstract fail (no decorator list), and otherwise makes ignore_stubs fail (no statement list) |
| Lint.NotSkippedOutcome | flake8_unused_arguments.py:27-56 | a definition that passes the abstract test and the stub test is not skipped and has the outcome it has with both skip toggles off |
| Lint.StubSkipped | flake8_unused_arguments.py:30-36 | under ignore_stubs a function whose body is `pass` or `...` yields nothing whatever the other toggles say, unless the abstract test before it raises |
| Lint.NonAbstractUnaffected | flake8_unused_arguments.py:27-29 | under ignore_abstract, a function whose decorators all resolve, none to `abstractmethod`, has the outcome it has with ignore_abstract off |
| Lint.StubsExemptExactly | flake8_unused_arguments.py:30-36 | ignore_stubs exempts exactly the bodies `pass` and `...` and otherwise changes nothing compared with the defaults |
| Lint.VariadicNamesDropped | flake8_unused_arguments.py:40-44 | under ignore_variadic_names no tuple names the `*vararg` or the `**kwarg` |
| Lint.VariadicDropsOnlyVariadic | flake8_unused_arguments.py:40-44 | when there is a `**kwarg`, ignore_variadic_names keeps exactly the unused names other than the `*vararg` and the `**kwarg` |
| Lint.VariadicKeepsOthers | flake8_unused_arguments.py:39-56 | under ignore_variadic_names, a definition with a `**kwarg` that is not skipped reports exactly its unused arguments other than the `*vararg` and the `**kwarg` |
| Lint.MissingKwargExactly | flake8_unused_arguments.py:40-44 | under ignore_variadic_names, a definition that is not skipped fails iff it has no `**kwarg` and has an unused argument other than its `*vararg`; the fault is the missing-kwarg one |
| Lint.EmitsExtend | flake8_unused_arguments.py:25-56 | appending the next definition's findings, in any order, extends the emission of the definitions before it |
| Lint.EmitsOnlySuccesses | flake8_unused_arguments.py:25-56 | every definition contributing to a completed emission is a definition that does not fail |
| Lint.FindingsStep | flake8_unused_arguments.py:39-56 | considering one more unused name appends its tuple iff it is reported |
| Lint.EmitUnused | flake8_unused_arguments.py:39-56 | the loop over the unused names fails iff some name makes the `**kwarg` read fail, and then with that fault; otherwise it yields a permutation of the definition's findings |
| Lint.EmitDefinition | flake8_unused_arguments.py:25-56 | one pass of the loop body fails with exactly the fault of `DefinitionOutcome` and otherwise yields a permutation of its findings |
| Lint.Plugin.constructor | flake8_unused_arguments.py:18-19 | the plugin keeps the module tree it is given |
| Lint.Plugin.Run | flake8_unused_arguments.py:21-56 | the run completes iff no collected definition fails, and then yields each definition's findings in collector order; otherwise it stops at the first failing definition, with its fault, after the findings of the definitions before it |
| Scenarios.SignatureNames | test_unused_arguments.py:19-22 | `def foo(a, b, *args, c, d=5, e, **kwargs)` gathers all seven names |
| Scenarios.UnusedOfSum | test_unused_arguments.py:55 | `def foo(a, b, c): return a + b` leaves `c` unused |
| Scenarios.UnusedOfAttributeAssignment | test_unused_arguments.py:56-63 | `self.thing = cool` uses both `self` and `cool` |
| Scenarios.UnusedOfNestedReader | test_unused_arguments.py:64-71 | reads inside a nested definition use the outer parameters; only `c` is unused |
| Scenarios.UnusedOfConstantLambda | test_unused_arguments.py:72 | `lambda g: 5` leaves `g` unused |
| Scenarios.DecoratorExamples | test_unused_arguments.py:87-98 | `@a @thing.b @thing.c() @d()` yields `a`, `b`, `c` and then fails on `d()`; a lambda fails at once |
| Scenarios.FindInFinderModule | test_unused_arguments.py:412-446 | the collector records `some_function` and `some_method`, not the functions nested in them |
| Scenarios.UnderscoreMessage | test_unused_arguments.py:325-332 | a leading underscore gives the U101 message |
| Scenarios.PassReported | test_unused_arguments.py:197-203 | with every toggle off, `def foo(a): pass` reports `a` at the definition |
| Scenarios.PassIsStub | test_unused_arguments.py:205-211 | ignore_stubs exempts `def foo(a): pass` |
| Scenarios.AbstractExamples | test_unused_arguments.py:161-178 | `@abstractmethod def foo(a): pass` is reported with the toggles off and exempt under ignore_abstract |
| Scenarios.VariadicExamples | test_unused_arguments.py:213-244 | `*args` alone is dropped under ignore_variadic_names and reported without it; `**kwargs` likewise |
| Scenarios.CalledDecoratorFault | flake8_unused_arguments.py:27-36 | `@a @d() def foo(x): pass` under ignore_abstract and ignore_stubs fails reading `.attr` of `d` instead of being skipped as a stub |
| Scenarios.MissingKwargExample | test_unused_arguments.py:197-203 | the same `def foo(a): pass` under ignore_variadic_names fails on the missing `**kwarg` |
| Scenarios.RunUnderscore | test_unused_arguments.py:325-332 | the whole run over `def foo(_a): pass` yields exactly one U101 tuple at line 2, column 0 |
| Scenarios.RunNestedCall | test_unused_arguments.py:382-391 | the whole run over `def cool(a): def inner(c): a()` completes with no tuple |

## Left out

- `setup.py` (packaging and flake8 entry-point registration) is not part of this model.
- The class attributes `name` and `version` are not modelled; they are constants read only by flake8.
- Parsing and `ast.NodeVisitor`'s method dispatch by class name are not modelled. The tree is a closed datatype. Nodes the plugin does not distinguish are `Other` nodes that keep their children in field order. A Call's keyword arguments are kept as plain children, and a class's keyword values (such as `metaclass=...`) are kept in its `bases`, where `generic_visit` reaches them in the same order.
- Python's set iteration order is not modelled. The order of one definition's findings is left open: the contract states a permutation of the finding set.
- Changing the toggles on the class object is not modelled. `Config` is fixed for a run.
- The test suite targets a newer plugin interface, so those tests have no counterpart in the model. This covers `get_arguments`, `is_stub_function`, `is_dunder_method`, `only_top_level` and the overload, lambda, nested-function and dunder toggles. It also covers the exemption of `self` and `cls` and the per-parameter column offsets.
- Where those tests disagree with the code, the model follows the code:
  - `@d()` fails, because a bare Name callee has no `.attr`; the test expects `d`.
  - A lambda's decorator names fail instead of being empty.
  - Tuples carry the definition's column rather than the parameter's.
  - `def cool(a): def inner(c): a()` yields nothing, because `inner` is never collected; the test expects a finding for `c`.
- Later versions of the plugin (the ones the test suite targets) also behave differently, and the model follows this code:
  - The collector is top-level only.
  - Only three toggles exist.
  - The stub test recognises only `pass` and `...`.
  - Findings come in set order, not declaration order.
  - A missing `**kwarg` under ignore_variadic_names is a crash, not a normal case.
