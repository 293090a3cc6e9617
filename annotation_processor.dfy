/** `DbxAnnotationProcessor`: turns every `@Dao` interface of a round into
    an implementation class and writes a registry of them. */
module AnnotationProcessor {

  import opened Wrappers
  import opened Text
  import opened Writers
  import opened MethodSpecs
  import opened DaoClassBuilders
  import opened DaoFactories

  // ---------------------------------------------------------------------
  // Elements

  /** The kinds of type element; `isInterface()` holds for interfaces and
      annotation types. */
  datatype ElementKind = ClassKind | EnumKind | InterfaceKind | AnnotationTypeKind | RecordKind

  predicate IsInterface(k: ElementKind)
  {
    k == InterfaceKind || k == AnnotationTypeKind
  }

  /** An enclosed element: a method, or anything else (a field, a nested type). */
  datatype Member = Executable(m: MethodElement) | OtherMember

  /** An element annotated with `@Dao`. A type element carries the name of
      its package, its simple name and its `toString()`, which is its
      qualified name; anything else only its `toString()`. */
  datatype Element =
    | TypeElement(kind: ElementKind, packageName: string, simpleName: string, qualifiedName: string, enclosed: seq<Member>)
    | OtherElement(text: string)

  /** `element.toString()`, the key of the element in the registry. */
  function ElementName(e: Element): string
  {
    if e.TypeElement? then e.qualifiedName else e.text
  }

  const NotAnInterface: string := "Dao annotation can only be used on interfaces"
  const MissingQuery: string := "Only methods annotated with @Query are supported"

  // ---------------------------------------------------------------------
  // One interface

  /** How the loop over an interface's members ended: it went through them
      all, it met an `IllegalArgumentException` (reported, interface
      dropped), or another exception escaped. */
  datatype Stop = Finished | Rejected | Crashed(error: Exception)

  /** The state of that loop: the diagnostics reported so far, the method
      descriptors built so far, and whether it has stopped. */
  datatype Compiled = Compiled(diagnostics: seq<string>, specs: seq<MethodSpec>, stop: Stop)

  /** What the loop learns from one member: that it is not a method, or
      whether the method lacks `@Query` and what `MethodSpec.from` makes
      of it. */
  datatype Step = NotAMethod | MethodStep(missingQuery: bool, spec: Result<MethodSpec>)

  function StepOf(member: Member): Step
  {
    match member
    case OtherMember => NotAMethod
    case Executable(m) => MethodStep(m.query.None?, From(m))
  }

  function Steps(members: seq<Member>): (r: seq<Step>)
    ensures |r| == |members|
  {
    if members == [] then [] else Steps(members[..|members| - 1]) + [StepOf(members[|members| - 1])]
  }

  lemma {:induction false} StepsAt(members: seq<Member>, i: nat)
    requires i < |members|
    ensures Steps(members)[i] == StepOf(members[i])
  {
    if i < |members| - 1 {
      StepsAt(members[..|members| - 1], i);
    }
  }

  /** One turn of the loop. A method without `@Query` is reported and then
      handed to `MethodSpec.from` all the same. */
  function CompileStep(c: Compiled, step: Step): Compiled
  {
    match step
    case NotAMethod => c
    case MethodStep(missingQuery, spec) =>
      var diagnostics := c.diagnostics + (if missingQuery then [MissingQuery] else []);
      match spec
      case Ok(m) => Compiled(diagnostics, c.specs + [m], Finished)
      case Throw(IllegalArgument(message)) => Compiled(diagnostics + [message], c.specs, Rejected)
      case Throw(e) => Compiled(diagnostics, c.specs, Crashed(e))
  }

  /** The loop over the members, in order, up to the first that stops it. */
  function Compile(steps: seq<Step>): Compiled
  {
    if steps == [] then Compiled([], [], Finished)
    else
      var c := Compile(steps[..|steps| - 1]);
      if c.stop != Finished then c else CompileStep(c, steps[|steps| - 1])
  }

  function CompileMembers(members: seq<Member>): Compiled
  {
    Compile(Steps(members))
  }

  /** What `MethodSpec.from` makes of each method, in order. */
  function MethodResults(steps: seq<Step>): (r: seq<Result<MethodSpec>>)
    ensures |r| <= |steps|
  {
    if steps == [] then []
    else
      var last := steps[|steps| - 1];
      MethodResults(steps[..|steps| - 1]) + (if last.MethodStep? then [last.spec] else [])
  }

  /** Every method's descriptor can be built. */
  predicate AllBuilt(steps: seq<Step>)
  {
    forall i :: 0 <= i < |MethodResults(steps)| ==> MethodResults(steps)[i].Ok?
  }

  /** Non-method members are skipped; the loop goes through all members
      exactly when every method's descriptor is built, and then holds those
      descriptors, in order. */
  lemma {:induction false} CompileFinished(steps: seq<Step>)
    ensures Compile(steps).stop == Finished <==>
      AllBuilt(steps)
    ensures Compile(steps).stop == Finished ==>
      |Compile(steps).specs| == |MethodResults(steps)| &&
      forall i :: 0 <= i < |MethodResults(steps)| ==> MethodResults(steps)[i] == Ok(Compile(steps).specs[i])
  {
    if steps != [] {
      var init := steps[..|steps| - 1];
      CompileFinished(init);
      var rs := MethodResults(steps);
      var prev := MethodResults(init);
      var last := steps[|steps| - 1];
      assert forall i :: 0 <= i < |prev| ==> rs[i] == prev[i];
      if Compile(init).stop != Finished {
        assert Compile(steps) == Compile(init);
        var i :| 0 <= i < |prev| && !prev[i].Ok?;
        assert !rs[i].Ok?;
        assert Compile(steps).stop != Finished;
        assert !AllBuilt(steps);
      } else if last.MethodStep? {
        assert rs == prev + [last.spec];
        if !last.spec.Ok? {
          assert !rs[|prev|].Ok?;
        }
      } else {
        assert rs == prev;
      }
    }
  }

  /** The loop stops at the first method whose descriptor cannot be built:
      on an `IllegalArgumentException` the interface is dropped and the
      exception's message is the last diagnostic; any other exception
      escapes. */
  lemma {:induction false} CompileStops(steps: seq<Step>, k: nat)
    requires k < |MethodResults(steps)| && MethodResults(steps)[k].Throw?
    requires forall i :: 0 <= i < k ==> MethodResults(steps)[i].Ok?
    ensures var c := Compile(steps);
      match MethodResults(steps)[k].error
      case IllegalArgument(message) => c.stop == Rejected && |c.diagnostics| > 0 && c.diagnostics[|c.diagnostics| - 1] == message
      case e => c.stop == Crashed(e)
  {
    var init := steps[..|steps| - 1];
    var rs := MethodResults(steps);
    var prev := MethodResults(init);
    assert forall i :: 0 <= i < |prev| ==> rs[i] == prev[i];
    if k < |prev| {
      CompileStops(init, k);
    } else {
      CompileFinished(init);
    }
  }

  /** The loop one member further. */
  lemma CompileSnoc(steps: seq<Step>, k: nat)
    requires k < |steps|
    ensures Compile(steps[..k + 1]) ==
      if Compile(steps[..k]).stop != Finished then Compile(steps[..k]) else CompileStep(Compile(steps[..k]), steps[k])
  {
    assert steps[..k + 1][..k] == steps[..k];
  }

  /** Once the loop has stopped on a prefix of the members, the rest are
      never looked at. */
  lemma {:induction false} CompilePrefixStops(steps: seq<Step>, k: nat)
    requires k <= |steps| && Compile(steps[..k]).stop != Finished
    ensures Compile(steps) == Compile(steps[..k])
    decreases |steps| - k
  {
    if k < |steps| {
      assert steps[..k + 1][..k] == steps[..k];
      CompilePrefixStops(steps, k + 1);
    } else {
      assert steps[..k] == steps;
    }
  }

  /** A method without `@Query` that the loop reaches is reported. */
  lemma {:induction false} MissingQueryReported(steps: seq<Step>, k: nat)
    requires k < |steps| && steps[k].MethodStep? && steps[k].missingQuery
    requires Compile(steps[..k]).stop == Finished
    ensures MissingQuery in Compile(steps).diagnostics
  {
    var init := steps[..|steps| - 1];
    if k < |init| {
      assert init[..k] == steps[..k];
      MissingQueryReported(init, k);
      if Compile(init).stop == Finished {
        assert Compile(init).diagnostics <= CompileStep(Compile(init), steps[|steps| - 1]).diagnostics;
      }
    } else {
      assert init == steps[..k];
    }
  }

  /** What became of one interface: an implementation class (its canonical
      name and source), nothing, or an exception that escapes `process`. */
  datatype Outcome = Generated(implName: string, source: string) | Skipped | Escaped(error: Exception)

  datatype InterfaceResult = InterfaceResult(diagnostics: seq<string>, outcome: Outcome)

  /** `processDaoInterface`. */
  function ProcessInterface(e: Element): InterfaceResult
  {
    if !e.TypeElement? || !IsInterface(e.kind) then InterfaceResult([NotAnInterface], Skipped)
    else
      var c := CompileMembers(e.enclosed);
      match c.stop
      case Rejected => InterfaceResult(c.diagnostics, Skipped)
      case Crashed(x) => InterfaceResult(c.diagnostics, Escaped(x))
      case Finished =>
        match SourceText(e.packageName, e.simpleName, c.specs)
        case Throw(x) => InterfaceResult(c.diagnostics, Escaped(x))
        case Ok(text) => InterfaceResult(c.diagnostics, Generated(e.packageName + "." + e.simpleName + ImplSuffix, text))
  }

  /** Only an interface (or annotation type) can yield an implementation;
      anything else is reported once and skipped. An interface yields one
      exactly when every method's descriptor is built and its source can be
      written, and the implementation is named after the interface. */
  lemma GeneratedOnlyForInterfaces(e: Element)
    ensures !e.TypeElement? || !IsInterface(e.kind) ==>
      ProcessInterface(e) == InterfaceResult([NotAnInterface], Skipped)
    ensures ProcessInterface(e).outcome.Generated? <==>
      && e.TypeElement? && IsInterface(e.kind)
      && AllBuilt(Steps(e.enclosed))
      && SourceText(e.packageName, e.simpleName, CompileMembers(e.enclosed).specs).Ok?
    ensures ProcessInterface(e).outcome.Generated? ==>
      ProcessInterface(e).outcome.implName == e.packageName + "." + e.simpleName + ImplSuffix
  {
    if e.TypeElement? && IsInterface(e.kind) {
      CompileFinished(Steps(e.enclosed));
      var c := CompileMembers(e.enclosed);
      if c.stop != Finished {
        assert !ProcessInterface(e).outcome.Generated?;
      }
    }
  }

  /** A method without `@Query` is reported but not skipped: if its
      parameters and return type pass, `MethodSpec.from` dereferences the
      missing annotation and the `NullPointerException` escapes. */
  lemma MissingQueryEscapes(e: Element, k: nat)
    requires e.TypeElement? && IsInterface(e.kind)
    requires k < |e.enclosed| && e.enclosed[k].Executable?
    requires e.enclosed[k].m.query.None?
    requires ParamsFrom(e.enclosed[k].m.params).Ok? && Returnable(e.enclosed[k].m.returnType)
    requires forall i :: 0 <= i < k && e.enclosed[i].Executable? ==> From(e.enclosed[i].m).Ok?
    ensures ProcessInterface(e).outcome == Escaped(NullPointer)
    ensures MissingQuery in ProcessInterface(e).diagnostics
  {
    var steps := Steps(e.enclosed);
    FromErrorPrecedence(e.enclosed[k].m);
    StepsAt(e.enclosed, k);
    BuiltBefore(e.enclosed, k);
    MissingQueryCrashes(steps, k);
  }

  /** When every method before `k` has a descriptor, the loop is still going at `k`. */
  lemma BuiltBefore(members: seq<Member>, k: nat)
    requires k <= |members|
    requires forall i :: 0 <= i < k && members[i].Executable? ==> From(members[i].m).Ok?
    ensures Compile(Steps(members)[..k]).stop == Finished
  {
    var steps := Steps(members);
    StepsPrefix(members, k);
    forall i | 0 <= i < k
      ensures steps[..k][i].MethodStep? ==> steps[..k][i].spec.Ok?
    {
      StepsAt(members, i);
    }
    NoFailureBefore(steps, k);
  }

  /** A method without `@Query` whose `MethodSpec.from` dereferences the
      missing annotation stops the loop with that exception, after the
      report. */
  lemma MissingQueryCrashes(steps: seq<Step>, k: nat)
    requires k < |steps| && steps[k] == MethodStep(true, Throw(NullPointer))
    requires Compile(steps[..k]).stop == Finished
    ensures Compile(steps).stop == Crashed(NullPointer)
    ensures MissingQuery in Compile(steps).diagnostics
  {
    MissingQueryReported(steps, k);
    CompileSnoc(steps, k);
    CompilePrefixStops(steps, k + 1);
  }

  lemma {:induction false} StepsPrefix(members: seq<Member>, k: nat)
    requires k <= |members|
    ensures Steps(members)[..k] == Steps(members[..k])
    decreases |members| - k
  {
    if k < |members| {
      StepsPrefix(members[..|members| - 1], k);
      assert members[..|members| - 1][..k] == members[..k];
    } else {
      assert members[..k] == members;
    }
  }

  /** When no method step before `k` fails, the loop is still going at `k`. */
  lemma NoFailureBefore(steps: seq<Step>, k: nat)
    requires k <= |steps|
    requires forall i :: 0 <= i < k ==> (steps[..k][i].MethodStep? ==> steps[..k][i].spec.Ok?)
    ensures Compile(steps[..k]).stop == Finished
  {
    var pre := steps[..k];
    CompileFinished(pre);
    MethodResultsOk(pre);
  }

  lemma {:induction false} MethodResultsOk(steps: seq<Step>)
    requires forall i :: 0 <= i < |steps| ==> (steps[i].MethodStep? ==> steps[i].spec.Ok?)
    ensures AllBuilt(steps)
  {
    if steps != [] {
      var init := steps[..|steps| - 1];
      MethodResultsOk(init);
    }
  }

  /** The loop over the members one member further. */
  lemma CompileMembersSnoc(members: seq<Member>, i: nat)
    requires i < |members|
    ensures var c := CompileMembers(members[..i]);
      CompileMembers(members[..i + 1]) == if c.stop != Finished then c else CompileStep(c, StepOf(members[i]))
  {
    assert members[..i + 1][..i] == members[..i];
    assert Steps(members[..i + 1]) == Steps(members[..i]) + [StepOf(members[i])];
  }

  /** Once the loop has stopped on a prefix of the members, the rest are
      never looked at. */
  lemma StoppedAt(members: seq<Member>, k: nat)
    requires k <= |members| && CompileMembers(members[..k]).stop != Finished
    ensures CompileMembers(members) == CompileMembers(members[..k])
  {
    StepsPrefix(members, k);
    CompilePrefixStops(Steps(members), k);
  }

  // ---------------------------------------------------------------------
  // A round

  /** The state of the loop of `process`: diagnostics, generated source
      files (qualified name and text), the map from interface name to
      implementation name, and an exception that escaped. */
  datatype Round = Round(diagnostics: seq<string>, files: seq<(string, string)>,
                         daoClasses: map<string, string>, escaped: Option<Exception>)

  /** What the loop of `process` learns from each element: its name and
      what became of it. */
  function Results(elements: seq<Element>): (r: seq<(string, InterfaceResult)>)
    ensures |r| == |elements|
  {
    if elements == [] then []
    else
      var e := elements[|elements| - 1];
      Results(elements[..|elements| - 1]) + [(ElementName(e), ProcessInterface(e))]
  }

  lemma {:induction false} ResultsAt(elements: seq<Element>, i: nat)
    requires i < |elements|
    ensures Results(elements)[i] == (ElementName(elements[i]), ProcessInterface(elements[i]))
  {
    if i < |elements| - 1 {
      ResultsAt(elements[..|elements| - 1], i);
    }
  }

  lemma {:induction false} ResultsAppend(xs: seq<Element>, ys: seq<Element>)
    ensures Results(xs + ys) == Results(xs) + Results(ys)
  {
    if ys != [] {
      var init := ys[..|ys| - 1];
      assert (xs + ys)[..|xs + ys| - 1] == xs + init;
      ResultsAppend(xs, init);
    } else {
      assert xs + ys == xs;
    }
  }

  /** One turn of the loop of `process`. */
  function RoundStep(r: Round, name: string, result: InterfaceResult): Round
  {
    match result.outcome
    case Generated(implName, text) =>
      Round(r.diagnostics + result.diagnostics, r.files + [(implName, text)], r.daoClasses[name := implName], None)
    case Skipped => Round(r.diagnostics + result.diagnostics, r.files, r.daoClasses, None)
    case Escaped(x) => Round(r.diagnostics + result.diagnostics, r.files, r.daoClasses, Some(x))
  }

  /** The loop of `process`, in order, up to the first element an
      exception escapes from. */
  function RoundOf(results: seq<(string, InterfaceResult)>): Round
  {
    if results == [] then Round([], [], map[], None)
    else
      var r := RoundOf(results[..|results| - 1]);
      var last := results[|results| - 1];
      if r.escaped.Some? then r else RoundStep(r, last.0, last.1)
  }

  function ProcessElements(elements: seq<Element>): Round
  {
    RoundOf(Results(elements))
  }

  /** A name is in the map exactly when some element of that name yielded
      an implementation, and it maps to such an element's implementation. */
  lemma {:induction false} RoundRegisteredIff(results: seq<(string, InterfaceResult)>, key: string)
    requires RoundOf(results).escaped.None?
    ensures key in RoundOf(results).daoClasses <==>
      exists i :: 0 <= i < |results| && results[i].0 == key && results[i].1.outcome.Generated?
    ensures key in RoundOf(results).daoClasses ==>
      exists i :: 0 <= i < |results| && results[i].0 == key && results[i].1.outcome.Generated? &&
        results[i].1.outcome.implName == RoundOf(results).daoClasses[key]
  {
    if results != [] {
      var init := results[..|results| - 1];
      var n := |results| - 1;
      RoundRegisteredIff(init, key);
      assert forall i :: 0 <= i < |init| ==> init[i] == results[i];
      if exists i :: 0 <= i < |results| && results[i].0 == key && results[i].1.outcome.Generated? {
        if !(results[n].0 == key && results[n].1.outcome.Generated?) {
          var i :| 0 <= i < |results| && results[i].0 == key && results[i].1.outcome.Generated?;
          assert i < n;
        }
      }
    }
  }

  /** An interface name is in the map exactly when some element of that
      name yielded an implementation, and it maps to such an element's
      implementation. */
  lemma RegisteredIff(elements: seq<Element>, key: string)
    requires ProcessElements(elements).escaped.None?
    ensures key in ProcessElements(elements).daoClasses <==>
      exists i :: 0 <= i < |elements| && ElementName(elements[i]) == key && ProcessInterface(elements[i]).outcome.Generated?
    ensures key in ProcessElements(elements).daoClasses ==>
      exists i :: 0 <= i < |elements| && ElementName(elements[i]) == key &&
        ProcessInterface(elements[i]).outcome.Generated? &&
        ProcessInterface(elements[i]).outcome.implName == ProcessElements(elements).daoClasses[key]
  {
    var results := Results(elements);
    RoundRegisteredIff(results, key);
    forall i | 0 <= i < |elements| {
      ResultsAt(elements, i);
    }
  }

  /** A skipped result does not disturb the others. */
  lemma {:induction false} RoundSkippedIsNeutral(before: seq<(string, InterfaceResult)>, x: (string, InterfaceResult),
                                                 after: seq<(string, InterfaceResult)>)
    requires x.1.outcome.Skipped?
    ensures var with := RoundOf(before + [x] + after);
      var without := RoundOf(before + after);
      with.daoClasses == without.daoClasses && with.files == without.files && with.escaped == without.escaped
  {
    if after == [] {
      assert (before + [x])[..|before|] == before;
      assert before + [x] + after == before + [x];
      assert before + after == before;
    } else {
      var init := after[..|after| - 1];
      RoundSkippedIsNeutral(before, x, init);
      assert (before + [x] + after)[..|before + [x] + after| - 1] == before + [x] + init;
      assert (before + after)[..|before + after| - 1] == before + init;
      assert (before + [x] + after)[|before + [x] + after| - 1] == after[|after| - 1];
      assert (before + after)[|before + after| - 1] == after[|after| - 1];
    }
  }

  /** An element that is skipped does not stop its siblings: the round
      without it ends with the same map, files and escape. */
  lemma SkippedElementIsNeutral(before: seq<Element>, e: Element, after: seq<Element>)
    requires ProcessInterface(e).outcome.Skipped?
    ensures var with := ProcessElements(before + [e] + after);
      var without := ProcessElements(before + after);
      with.daoClasses == without.daoClasses && with.files == without.files && with.escaped == without.escaped
  {
    ResultsAppend(before + [e], after);
    ResultsAppend(before, [e]);
    ResultsAppend(before, after);
    assert Results([e]) == [(ElementName(e), ProcessInterface(e))];
    RoundSkippedIsNeutral(Results(before), (ElementName(e), ProcessInterface(e)), Results(after));
  }

  /** Once an element has escaped, the rest are never looked at. */
  lemma {:induction false} RoundPrefixEscapes(results: seq<(string, InterfaceResult)>, k: nat)
    requires k <= |results| && RoundOf(results[..k]).escaped.Some?
    ensures RoundOf(results) == RoundOf(results[..k])
    decreases |results| - k
  {
    if k < |results| {
      assert results[..k + 1][..k] == results[..k];
      RoundPrefixEscapes(results, k + 1);
    } else {
      assert results[..k] == results;
    }
  }

  lemma {:induction false} ResultsPrefix(elements: seq<Element>, k: nat)
    requires k <= |elements|
    ensures Results(elements)[..k] == Results(elements[..k])
    decreases |elements| - k
  {
    if k < |elements| {
      ResultsPrefix(elements[..|elements| - 1], k);
      assert elements[..|elements| - 1][..k] == elements[..k];
    } else {
      assert elements[..k] == elements;
    }
  }

  /** One more element: its result is folded into the round, unless an
      earlier element has escaped. */
  lemma ProcessedOneMore(elements: seq<Element>, i: nat)
    requires i < |elements|
    ensures var before := ProcessElements(elements[..i]);
      ProcessElements(elements[..i + 1]) ==
        if before.escaped.Some? then before else RoundStep(before, ElementName(elements[i]), ProcessInterface(elements[i]))
  {
    assert elements[..i + 1][..i] == elements[..i];
  }

  /** Once an element has escaped, the rest are never looked at. */
  lemma EscapedAt(elements: seq<Element>, k: nat)
    requires k <= |elements| && ProcessElements(elements[..k]).escaped.Some?
    ensures ProcessElements(elements) == ProcessElements(elements[..k])
  {
    ResultsPrefix(elements, k);
    RoundPrefixEscapes(Results(elements), k);
  }

  // ---------------------------------------------------------------------
  // The registry

  const RegistryPackage: string := "dbx.internal"
  const ServicePath: string := "META-INF/services/com.inputforge.dbx.DaoRegistry"

  /** `"DaoRegistry" + System.currentTimeMillis()`, with the clock reading given. */
  function RegistryClassName(suffix: string): string
  {
    "DaoRegistry" + suffix
  }

  function RegistryHeader(packageName: string, className: string): string
  {
    "package " + packageName + ";\n\n" + "import java.sql.Connection;\n" + "import java.util.Optional;\n\n"
    + "import com.inputforge.dbx.DaoRegistry;\n\n" + "public class " + className + " implements DaoRegistry {\n\n"
    + "@Override\n" + "@SuppressWarnings(\"unchecked\")\n"
    + "public <T> Optional<? extends T> get(Class<T> daoClass, Connection connection) {"
    + "switch (daoClass.getName()) {\n"
  }

  const RegistryFooter: string :=
    "default:\n" + "return Optional.empty();\n" + "}\n" + "}\n\n" + "}"

  /** One `case` of the `switch`: an interface name and the implementation
      class it constructs. */
  function CaseText(key: string, implName: string): string
  {
    "case \"" + key + "\":\n" + "return (Optional<? extends T>) Optional.of(new " + implName + "(connection));\n"
  }

  function CasesText(cases: seq<(string, string)>): string
  {
    if cases == [] then ""
    else CasesText(cases[..|cases| - 1]) + CaseText(cases[|cases| - 1].0, cases[|cases| - 1].1)
  }

  /** The source of the registry class for the given cases, in order. */
  function RegistryText(packageName: string, className: string, cases: seq<(string, string)>): string
  {
    RegistryHeader(packageName, className) + CasesText(cases) + RegistryFooter
  }

  /** `order` lists every key of the map once: an iteration order of the map. */
  ghost predicate IsOrdering(order: seq<string>, keys: set<string>)
  {
    && (forall i, j :: 0 <= i < j < |order| ==> order[i] != order[j])
    && (forall k :: k in order <==> k in keys)
  }

  /** The map's entries in the given order. */
  function Cases(order: seq<string>, daoClasses: map<string, string>): (r: seq<(string, string)>)
    requires forall k :: k in order ==> k in daoClasses
    ensures |r| == |order|
    ensures forall i :: 0 <= i < |order| ==> r[i] == (order[i], daoClasses[order[i]])
  {
    seq(|order|, i requires 0 <= i < |order| => (order[i], daoClasses[order[i]]))
  }

  /** What the generated `switch` does: the first case whose label equals
      the name, or the `default`, which is empty. */
  function SwitchLookup(cases: seq<(string, string)>, name: string): Option<string>
  {
    if cases == [] then None
    else if cases[0].0 == name then Some(cases[0].1)
    else SwitchLookup(cases[1..], name)
  }

  /** The generated registry is an exact-match lookup of the map, whatever
      the iteration order of the map was. */
  lemma {:induction false} SwitchIsExactLookup(order: seq<string>, daoClasses: map<string, string>, name: string)
    requires IsOrdering(order, daoClasses.Keys)
    ensures SwitchLookup(Cases(order, daoClasses), name) == if name in daoClasses then Some(daoClasses[name]) else None
  {
    SwitchLookupFinds(Cases(order, daoClasses), name);
    if name in daoClasses {
      var i :| 0 <= i < |order| && order[i] == name;
      var cases := Cases(order, daoClasses);
      var j :| 0 <= j < |cases| && cases[j].0 == name && SwitchLookup(cases, name) == Some(cases[j].1);
      assert order[j] == name;
    }
  }

  lemma {:induction false} SwitchLookupFinds(cases: seq<(string, string)>, name: string)
    ensures SwitchLookup(cases, name).Some? <==> exists i :: 0 <= i < |cases| && cases[i].0 == name
    ensures SwitchLookup(cases, name).Some? ==>
      exists i :: 0 <= i < |cases| && cases[i].0 == name && SwitchLookup(cases, name) == Some(cases[i].1)
  {
    if cases != [] && cases[0].0 != name {
      SwitchLookupFinds(cases[1..], name);
      if exists i :: 0 <= i < |cases| && cases[i].0 == name {
        var i :| 0 <= i < |cases| && cases[i].0 == name;
        assert cases[1..][i - 1] == cases[i];
      }
      if SwitchLookup(cases[1..], name).Some? {
        var i :| 0 <= i < |cases[1..]| && cases[1..][i].0 == name && SwitchLookup(cases[1..], name) == Some(cases[1..][i].1);
        assert cases[i + 1] == cases[1..][i];
      }
    }
  }

  /** One `case` per map entry. */
  lemma OneCasePerEntry(order: seq<string>, keys: set<string>)
    requires IsOrdering(order, keys)
    ensures |order| == |keys|
  {
    DistinctCard(order);
    assert (set k | k in order) == keys;
  }

  lemma {:induction false} DistinctCard(order: seq<string>)
    requires forall i, j :: 0 <= i < j < |order| ==> order[i] != order[j]
    ensures |set k | k in order| == |order|
  {
    if order != [] {
      var init := order[..|order| - 1];
      DistinctCard(init);
      var last := order[|order| - 1];
      assert (set k | k in order) == (set k | k in init) + {last};
      assert last !in (set k | k in init);
    }
  }

  /** The registry as `DaoFactory` sees it: asked for a DAO class by name,
      it answers with the implementation class the `switch` names. */
  function GeneratedRegistry<C>(cases: seq<(string, string)>): Registry<C, string>
  {
    (name: string, connection: C) => SwitchLookup(cases, name)
  }

  /** End to end: with the generated registry first on the service path,
      `DaoFactory.create` resolves a registered interface to its
      implementation whatever else is installed, and an interface that no
      registry knows fails with `Dao not found`. */
  lemma FactoryResolvesGenerated<C>(order: seq<string>, daoClasses: map<string, string>,
                                    later: seq<Registry<C, string>>, name: string, connection: C)
    requires IsOrdering(order, daoClasses.Keys)
    ensures name in daoClasses ==>
      FirstHit([GeneratedRegistry<C>(Cases(order, daoClasses))] + later, name, connection) == Some(daoClasses[name])
    ensures name !in daoClasses && (forall i :: 0 <= i < |later| ==> later[i](name, connection).None?) ==>
      FirstHit([GeneratedRegistry<C>(Cases(order, daoClasses))] + later, name, connection) == None
  {
    SwitchIsExactLookup(order, daoClasses, name);
    var all := [GeneratedRegistry<C>(Cases(order, daoClasses))] + later;
    assert all[1..] == later;
    if name !in daoClasses && (forall i :: 0 <= i < |later| ==> later[i](name, connection).None?) {
      FirstHitIsFirst(later, name, connection);
    }
  }

  lemma CasesTextSnoc(order: seq<string>, key: string, daoClasses: map<string, string>)
    requires forall k :: k in order ==> k in daoClasses
    requires key in daoClasses
    ensures CasesText(Cases(order + [key], daoClasses)) == CasesText(Cases(order, daoClasses)) + CaseText(key, daoClasses[key])
  {
    assert Cases(order + [key], daoClasses)[..|order|] == Cases(order, daoClasses);
  }

  /** The loop of `writeDaoRegistryImpl` over the map's entries, in the
      map's iteration order, which is left open: any order of the keys. */
  method WriteCases(daoClasses: map<string, string>, w: Writer) returns (order: seq<string>)
    modifies w
    ensures IsOrdering(order, daoClasses.Keys)
    ensures w.text == old(w.text) + CasesText(Cases(order, daoClasses))
  {
    var remaining := daoClasses.Keys;
    order := [];
    while remaining != {}
      invariant forall k :: k in order ==> k in daoClasses
      invariant forall i, j :: 0 <= i < j < |order| ==> order[i] != order[j]
      invariant forall k :: k in daoClasses ==> (k in order <==> k !in remaining)
      invariant remaining <= daoClasses.Keys
      invariant w.text == old(w.text) + CasesText(Cases(order, daoClasses))
      decreases |remaining|
    {
      var key :| key in remaining;
      w.Append(CaseText(key, daoClasses[key]));
      CasesTextSnoc(order, key, daoClasses);
      AppendAssoc(old(w.text), CasesText(Cases(order, daoClasses)), CaseText(key, daoClasses[key]));
      order := order + [key];
      remaining := remaining - {key};
    }
  }

  /** The registry's source file: named after the class it declares. */
  function RegistryFile(suffix: string, order: seq<string>, daoClasses: map<string, string>): (string, string)
    requires forall k :: k in order ==> k in daoClasses
  {
    (RegistryPackage + "." + RegistryClassName(suffix),
     RegistryText(RegistryPackage, RegistryClassName(suffix), Cases(order, daoClasses)))
  }

  /** The service file names the registry class by the name of its source. */
  function ServiceFile(suffix: string): (string, string)
  {
    (ServicePath, RegistryPackage + "." + RegistryClassName(suffix))
  }

  // ---------------------------------------------------------------------
  // The processor

  /** The processor with what it has reported and written: diagnostics,
      generated source files and generated resources, each as (name,
      content) in creation order. */
  class Processor {
    var diagnostics: seq<string>
    var sourceFiles: seq<(string, string)>
    var resources: seq<(string, string)>

    constructor ()
      ensures diagnostics == [] && sourceFiles == [] && resources == []
    {
      diagnostics := [];
      sourceFiles := [];
      resources := [];
    }

    /** `processDaoInterface`: the implementation's canonical name, nothing
        (the interface was reported and dropped), or an exception that
        escapes. A source file is created before the class is written. */
    method ProcessDaoInterface(e: Element) returns (r: Result<Option<string>>)
      modifies this
      ensures resources == old(resources)
      ensures diagnostics == old(diagnostics) + ProcessInterface(e).diagnostics
      ensures ProcessInterface(e).outcome.Generated? ==>
        r == Ok(Some(ProcessInterface(e).outcome.implName)) &&
        sourceFiles == old(sourceFiles) + [(ProcessInterface(e).outcome.implName, ProcessInterface(e).outcome.source)]
      ensures ProcessInterface(e).outcome.Skipped? ==> r == Ok(None) && sourceFiles == old(sourceFiles)
      ensures ProcessInterface(e).outcome.Escaped? ==> r == Throw(ProcessInterface(e).outcome.error)
    {
      if !e.TypeElement? || !IsInterface(e.kind) {
        diagnostics := diagnostics + [NotAnInterface];
        return Ok(None);
      }
      var builder := new DaoClassBuilder(e.packageName, e.simpleName);
      var stop := CompileInto(e.enclosed, builder);
      if stop != Finished {
        return if stop.Crashed? then Throw(stop.error) else Ok(None);
      }
      var w := new Writer();
      var thrown := builder.Write(w);
      var name := builder.CanonicalName();
      assert name == e.packageName + "." + e.simpleName + ImplSuffix;
      sourceFiles := sourceFiles + [(name, w.text)];
      if thrown.Some? {
        return Throw(thrown.value);
      }
      ghost var text := SourceText(e.packageName, e.simpleName, builder.methods);
      assert w.text == "" + text.value == text.value;
      assert ProcessInterface(e).outcome == Generated(name, text.value);
      return Ok(Some(name));
    }

    /** The loop of `processDaoInterface` over the members: reports, adds
        each method's descriptor to the builder, and stops at the first
        method whose descriptor cannot be built. */
    method CompileInto(members: seq<Member>, builder: DaoClassBuilder) returns (stop: Stop)
      requires builder.methods == []
      modifies this, builder
      ensures stop == CompileMembers(members).stop
      ensures diagnostics == old(diagnostics) + CompileMembers(members).diagnostics
      ensures stop == Finished ==> builder.methods == CompileMembers(members).specs
      ensures sourceFiles == old(sourceFiles) && resources == old(resources)
    {
      var i := 0;
      while i < |members|
        invariant 0 <= i <= |members|
        invariant CompileMembers(members[..i]).stop == Finished
        invariant builder.methods == CompileMembers(members[..i]).specs
        invariant diagnostics == old(diagnostics) + CompileMembers(members[..i]).diagnostics
        invariant sourceFiles == old(sourceFiles) && resources == old(resources)
      {
        CompileMembersSnoc(members, i);
        stop := CompileMember(members[i], builder, CompileMembers(members[..i]), old(diagnostics));
        if stop != Finished {
          StoppedAt(members, i + 1);
          return;
        }
        i := i + 1;
      }
      assert members[..|members|] == members;
      return Finished;
    }

    /** One turn of that loop: a method without `@Query` is reported, then
        its descriptor is added to the builder, or the exception of
        `MethodSpec.from` stops the loop. */
    method CompileMember(member: Member, builder: DaoClassBuilder, ghost c: Compiled, ghost diagnostics0: seq<string>)
      returns (stop: Stop)
      requires c.stop == Finished && builder.methods == c.specs && diagnostics == diagnostics0 + c.diagnostics
      modifies this, builder
      ensures stop == CompileStep(c, StepOf(member)).stop
      ensures diagnostics == diagnostics0 + CompileStep(c, StepOf(member)).diagnostics
      ensures stop == Finished ==> builder.methods == CompileStep(c, StepOf(member)).specs
      ensures sourceFiles == old(sourceFiles) && resources == old(resources)
    {
      if member.Executable? {
        var m := member.m;
        if m.query.None? {
          diagnostics := diagnostics + [MissingQuery];
        }
        var spec := From(m);
        if spec.Throw? {
          if spec.error.IllegalArgument? {
            diagnostics := diagnostics + [spec.error.message];
          }
          return if spec.error.IllegalArgument? then Rejected else Crashed(spec.error);
        }
        builder.AddMethodSpec(spec.value);
      }
      return Finished;
    }

    /** `writeDaoRegistryImpl`: one `case` per entry, in the map's
        iteration order (any order), then the `default`. */
    method WriteDaoRegistryImpl(daoClasses: map<string, string>, packageName: string, className: string)
      returns (order: seq<string>)
      modifies this
      ensures IsOrdering(order, daoClasses.Keys)
      ensures sourceFiles == old(sourceFiles) +
        [(packageName + "." + className, RegistryText(packageName, className, Cases(order, daoClasses)))]
      ensures diagnostics == old(diagnostics) && resources == old(resources)
    {
      var w := new Writer();
      var header := RegistryHeader(packageName, className);
      w.Append(header);
      EmptyPrefix(header);
      order := WriteCases(daoClasses, w);
      w.Append(RegistryFooter);
      sourceFiles := sourceFiles + [(packageName + "." + className, w.text)];
    }

    /** `writeDaoService`: the service file names the registry class. */
    method WriteDaoService(packageName: string, className: string)
      modifies this
      ensures resources == old(resources) + [(ServicePath, packageName + "." + className)]
      ensures diagnostics == old(diagnostics) && sourceFiles == old(sourceFiles)
    {
      var w := new Writer();
      w.Append(packageName);
      w.Append(".");
      w.Append(className);
      assert w.text == packageName + "." + className;
      resources := resources + [(ServicePath, w.text)];
    }

    /** `writeDaoRegistry`: the registry source and the service file that
        names it, with the same class name. */
    method WriteDaoRegistry(daoClasses: map<string, string>, suffix: string) returns (order: seq<string>)
      modifies this
      ensures IsOrdering(order, daoClasses.Keys)
      ensures sourceFiles == old(sourceFiles) + [RegistryFile(suffix, order, daoClasses)]
      ensures resources == old(resources) + [ServiceFile(suffix)]
      ensures diagnostics == old(diagnostics)
    {
      var className := RegistryClassName(suffix);
      order := WriteDaoRegistryImpl(daoClasses, RegistryPackage, className);
      WriteDaoService(RegistryPackage, className);
    }

    /** One turn of the loop of `process`: the element's implementation,
        if any, is registered under the element's name. */
    method ProcessNext(elements: seq<Element>, i: nat, daoClasses: map<string, string>,
                       ghost diagnostics0: seq<string>, ghost sourceFiles0: seq<(string, string)>)
      returns (escaped: Option<Exception>, daoClasses': map<string, string>)
      requires i < |elements| && ProcessElements(elements[..i]).escaped.None?
      requires daoClasses == ProcessElements(elements[..i]).daoClasses
      requires diagnostics == diagnostics0 + ProcessElements(elements[..i]).diagnostics
      requires sourceFiles == sourceFiles0 + ProcessElements(elements[..i]).files
      modifies this
      ensures escaped == ProcessElements(elements[..i + 1]).escaped
      ensures escaped.None? ==>
        && daoClasses' == ProcessElements(elements[..i + 1]).daoClasses
        && diagnostics == diagnostics0 + ProcessElements(elements[..i + 1]).diagnostics
        && sourceFiles == sourceFiles0 + ProcessElements(elements[..i + 1]).files
      ensures resources == old(resources)
    {
      var element := elements[i];
      ghost var before := ProcessElements(elements[..i]);
      ghost var result := ProcessInterface(element);
      ProcessedOneMore(elements, i);
      var implClass := ProcessDaoInterface(element);
      daoClasses' := daoClasses;
      if implClass.Throw? {
        return Some(implClass.error), daoClasses';
      }
      if implClass.value.Some? {
        daoClasses' := daoClasses[ElementName(element) := implClass.value.value];
      }
      escaped := None;
    }

    /** `process`: every element in turn; an element that is skipped does
        not stop the others. The registry and its service file are written
        only when some interface yielded an implementation. An exception
        that escapes an element escapes `process`. */
    method Process(elements: seq<Element>, suffix: string) returns (r: Result<bool>)
      modifies this
      ensures ProcessElements(elements).escaped.Some? ==> r == Throw(ProcessElements(elements).escaped.value)
      ensures ProcessElements(elements).escaped.None? ==>
        r == Ok(true) && diagnostics == old(diagnostics) + ProcessElements(elements).diagnostics
      ensures ProcessElements(elements).escaped.None? && ProcessElements(elements).daoClasses == map[] ==>
        sourceFiles == old(sourceFiles) + ProcessElements(elements).files && resources == old(resources)
      ensures ProcessElements(elements).escaped.None? && ProcessElements(elements).daoClasses != map[] ==>
        exists order :: IsOrdering(order, ProcessElements(elements).daoClasses.Keys) &&
          sourceFiles == old(sourceFiles) + ProcessElements(elements).files
            + [RegistryFile(suffix, order, ProcessElements(elements).daoClasses)] &&
          resources == old(resources) + [ServiceFile(suffix)]
    {
      var daoClasses: map<string, string> := map[];
      var i := 0;
      while i < |elements|
        invariant 0 <= i <= |elements|
        invariant ProcessElements(elements[..i]).escaped.None?
        invariant daoClasses == ProcessElements(elements[..i]).daoClasses
        invariant diagnostics == old(diagnostics) + ProcessElements(elements[..i]).diagnostics
        invariant sourceFiles == old(sourceFiles) + ProcessElements(elements[..i]).files
        invariant resources == old(resources)
      {
        var escaped;
        escaped, daoClasses := ProcessNext(elements, i, daoClasses, old(diagnostics), old(sourceFiles));
        if escaped.Some? {
          EscapedAt(elements, i + 1);
          return Throw(escaped.value);
        }
        i := i + 1;
      }
      assert elements[..|elements|] == elements;
      if daoClasses != map[] {
        var order := WriteDaoRegistry(daoClasses, suffix);
      }
      return Ok(true);
    }
  }
}
