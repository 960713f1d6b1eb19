/** Semantic obligations: derivation from features, applicability predicates, direct test, and coordinate counts.

  Identifier strings are constructors where the code tests them and numbers where it does not.
*/
module Obligations {
  import opened Sorting

  datatype FeatureClass =
    CaptureClass | ReplacementClass | DiagnosticClass | HostOperationClass |
      SpecialOperationClass | OtherClass(nat)

  datatype Category = UnicodeAndTextModel | CharacterClasses | DiagnosticsResourcesAndSafety | OtherCategory(nat)

  datatype Operation =
    | Compile | Test | PrefixMatch | FullMatch | Search | NextMatch | FindAll | FindOverlapping |
      Extract | Count | Position
    | Split | ReplaceFirst | ReplaceAll | ReplaceCallback | ExpandReplacement | Analyze | PartialMatch | StreamScan
    | BlockScan | VectorScan | SetMatch | OtherOperation(nat)

  datatype Capability = CapturesCapability | ReplacementCapability | StreamingCapability | OtherCapability(nat)

  datatype Facet =
    | Syntax | CoreSemantics | SearchIteration | Captures | UnicodeEncoding | OptionsState | HostOperation | Replacement
    | Errors | ResourceTermination | Interaction | Differential

  const FACETS: seq<Facet> := [
    Syntax, CoreSemantics, SearchIteration, Captures, UnicodeEncoding, OptionsState, HostOperation, Replacement,
    Errors, ResourceTermination, Interaction, Differential]

  datatype Feature = Feature(
    id: nat, class_: FeatureClass, category: Category, operations: set<Operation>,
    hasModifiers: bool, hasRelations: bool, hasVariants: bool, historicalOnly: bool)

  datatype Status = Mandatory | Conditional | Informative | Prohibited

  const SEARCH_OPERATIONS: set<Operation> :=
    {Test, PrefixMatch, FullMatch, Search, NextMatch, FindAll, FindOverlapping, Extract, Count, Position}
  const CAPTURE_OPERATIONS: set<Operation> :=
    {PrefixMatch, FullMatch, Search, NextMatch, FindAll, FindOverlapping, Extract, Split,
     ReplaceFirst, ReplaceAll, ReplaceCallback, Analyze}
  const REPLACEMENT_OPERATIONS: set<Operation> := {ReplaceFirst, ReplaceAll, ReplaceCallback, ExpandReplacement}
  const RESOURCE_OPERATIONS: set<Operation> :=
    {Compile, Test, PrefixMatch, FullMatch, Search, NextMatch, FindAll, PartialMatch, StreamScan, BlockScan,
     VectorScan, SetMatch}

  // ---------------------------------------------------------------------------
  // Derivation

  function FacetStatus(f: Feature, facet: Facet): Status {
    match facet
    case CoreSemantics => Mandatory
    case Syntax => if f.class_.HostOperationClass? || f.class_.DiagnosticClass? then Prohibited else Mandatory
    case SearchIteration => if f.class_.ReplacementClass? || f.class_.DiagnosticClass? then Prohibited else Conditional
    case Captures =>
      if f.class_.CaptureClass? then Mandatory else if f.class_.DiagnosticClass? then Prohibited else Conditional
    case UnicodeEncoding =>
      if f.category.UnicodeAndTextModel? || f.category.CharacterClasses? then Mandatory else Conditional
    case OptionsState =>
      if f.hasModifiers || f.class_.HostOperationClass? || f.class_.DiagnosticClass? || f.class_.SpecialOperationClass?
      then Conditional else Informative
    case HostOperation => if f.class_.HostOperationClass? then Mandatory else Conditional
    case Replacement =>
      if f.class_.ReplacementClass? then Mandatory else if f.class_.DiagnosticClass? then Prohibited else Conditional
    case Errors => if f.class_.DiagnosticClass? then Mandatory else Conditional
    case ResourceTermination => if f.category.DiagnosticsResourcesAndSafety? then Mandatory else Conditional
    case Interaction => if f.hasRelations then Conditional else Informative
    case Differential => if f.hasVariants || f.historicalOnly then Conditional else Informative
  }

  function FacetOperations(f: Feature, facet: Facet): set<Operation> {
    var operations := match facet
      case Syntax => f.operations + {Compile}
      case SearchIteration => f.operations * SEARCH_OPERATIONS
      case Captures => CAPTURE_OPERATIONS
      case Replacement => REPLACEMENT_OPERATIONS
      case Errors => f.operations + {Compile}
      case ResourceTermination => f.operations * RESOURCE_OPERATIONS
      case _ => f.operations;
    if operations == {} && !facet.Captures? && !facet.Replacement? then {Compile} else operations
  }

  datatype Clause =
    | ProfileOffersOperation
    | ProfileHas(capability: Capability)
    | OperationIn(operations: set<Operation>)
    | ComparatorExists
    | InteractionNamed
    | FeatureStateOpen

  datatype Predicate = Never | All(clauses: seq<Clause>)

  function PredicateOf(facet: Facet, status: Status): Predicate {
    if status.Prohibited? then Never
    else if !status.Conditional? then All([ProfileOffersOperation])
    else All([ProfileOffersOperation] + [
      match facet
      case Captures => ProfileHas(CapturesCapability)
      case Replacement => ProfileHas(ReplacementCapability)
      case SearchIteration => OperationIn(SEARCH_OPERATIONS)
      case Differential => ComparatorExists
      case Interaction => InteractionNamed
      case _ => FeatureStateOpen])
  }

  datatype Obligation = Obligation(
    feature: nat, facet: Facet, case_: nat, status: Status, operations: set<Operation>, rule: Predicate)

  function Derive(f: Feature, facet: Facet, case_: nat): Obligation {
    var status := FacetStatus(f, facet);
    Obligation(
      f.id, facet, case_, status,
      if status.Prohibited? then {} else FacetOperations(f, facet), PredicateOf(facet, status))
  }

  /** Exactly the prohibited obligations have no operation: the compile fallback and the fixed capture and replacement
      sets leave every other facet of every feature at least one. */
  lemma OnlyProhibitedHaveNoOperation(f: Feature, facet: Facet, case_: nat)
    ensures Derive(f, facet, case_).operations == {} <==> Derive(f, facet, case_).status.Prohibited?
    ensures Derive(f, facet, case_).status.Prohibited? <==> Derive(f, facet, case_).rule.Never?
  {
    assert Search in CAPTURE_OPERATIONS && ReplaceAll in REPLACEMENT_OPERATIONS;
    assert Compile in FacetOperations(f, Syntax) && Compile in FacetOperations(f, Errors);
  }

  // ---------------------------------------------------------------------------
  // The tables, read the other way

  /** Which features each status befalls, facet by facet. */
  lemma StatusesByFeature(f: Feature, facet: Facet)
    ensures FacetStatus(f, facet).Prohibited? <==>
            || (f.class_.DiagnosticClass? && facet in {Syntax, SearchIteration, Captures, Replacement})
            || (f.class_.HostOperationClass? && facet.Syntax?)
            || (f.class_.ReplacementClass? && facet.SearchIteration?)
    ensures FacetStatus(f, facet).Informative? <==>
            || (facet.OptionsState? && !f.hasModifiers
                  && !(f.class_ in {HostOperationClass, DiagnosticClass, SpecialOperationClass}))
            || (facet.Interaction? && !f.hasRelations)
            || (facet.Differential? && !f.hasVariants && !f.historicalOnly)
    ensures FacetStatus(f, facet).Mandatory? <==>
            || facet.CoreSemantics?
            || (facet.Syntax? && !(f.class_ in {HostOperationClass, DiagnosticClass}))
            || (f.class_, facet) in
               {(CaptureClass, Captures), (HostOperationClass, HostOperation), (ReplacementClass, Replacement),
                (DiagnosticClass, Errors)}
            || (f.category, facet) in
               {(UnicodeAndTextModel, UnicodeEncoding), (CharacterClasses, UnicodeEncoding),
                (DiagnosticsResourcesAndSafety, ResourceTermination)}
  {
  }

  /** Which facets may exercise an operation of their own choosing: a set for captures and one for replacement, whatever
      the feature supports; the others stay within the feature, except that compiling belongs to syntax and errors, and
      is what is left when nothing else is. */
  lemma OperationsByFacet(f: Feature, facet: Facet, operation: Operation)
    ensures operation in FacetOperations(f, facet) <==>
            match facet
            case Captures => operation in CAPTURE_OPERATIONS
            case Replacement => operation in REPLACEMENT_OPERATIONS
            case _ => Within(f, facet, operation) || (operation.Compile? && ToCompile(f, facet))
  {
    if facet.Syntax? || facet.Errors? {
      assert Compile in f.operations + {Compile};
    } else if !facet.Captures? && !facet.Replacement? {
      var own :=
        if facet.SearchIteration? then f.operations * SEARCH_OPERATIONS
        else if facet.ResourceTermination? then f.operations * RESOURCE_OPERATIONS
        else f.operations;
      assert forall o :: o in own <==> Within(f, facet, o);
      if own == {} {
        assert FacetOperations(f, facet) == {Compile};
      } else {
        var o :| o in own;
        assert !ToCompile(f, facet);
      }
    }
  }

  /** A supported operation that the facet is about. */
  predicate Within(f: Feature, facet: Facet, operation: Operation) {
    && operation in f.operations
    && (facet.SearchIteration? ==> operation in SEARCH_OPERATIONS)
    && (facet.ResourceTermination? ==> operation in RESOURCE_OPERATIONS)
  }

  /** Compiling is always part of the facet, or the only thing left to do. */
  ghost predicate ToCompile(f: Feature, facet: Facet) {
    facet.Syntax? || facet.Errors? || forall o :: !Within(f, facet, o)
  }

  /** The sets of operations, operation by operation. */
  lemma SetsByOperation(operation: Operation)
    ensures operation in SEARCH_OPERATIONS <==>
            operation.Test? || operation.PrefixMatch? || operation.FullMatch? || operation.Search?
            || operation.NextMatch? || operation.FindAll? || operation.FindOverlapping? || operation.Extract?
            || operation.Count? || operation.Position?
    ensures operation in REPLACEMENT_OPERATIONS <==>
            operation.ReplaceFirst? || operation.ReplaceAll? || operation.ReplaceCallback?
            || operation.ExpandReplacement?
    ensures operation in CAPTURE_OPERATIONS <==>
            (operation in SEARCH_OPERATIONS && !operation.Test? && !operation.Count? && !operation.Position?)
            || (operation in REPLACEMENT_OPERATIONS && !operation.ExpandReplacement?)
            || operation.Split? || operation.Analyze?
    ensures operation in RESOURCE_OPERATIONS <==>
            (operation in SEARCH_OPERATIONS && !operation.FindOverlapping? && !operation.Extract?
               && !operation.Count? && !operation.Position?)
            || operation.Compile? || operation.PartialMatch? || operation.StreamScan? || operation.BlockScan?
            || operation.VectorScan? || operation.SetMatch?
  {
  }

  // ---------------------------------------------------------------------------
  // Applicability, twice

  datatype ArchetypeName = DatabaseService | Cli | OtherArchetype(nat)

  datatype Archetype = Archetype(name: ArchetypeName, operations: set<Operation>, capabilities: set<Capability>)

  /** The feature sets that some archetypes only execute for syntax. */
  datatype Families = Families(streaming: set<nat>, sql: set<nat>, editor: set<nat>)

  /** The facts a predicate reads of a profile and a vector. */
  datatype Facts = Facts(
    operations: set<Operation>, capabilities: set<Capability>, comparator: bool,
    interactionNamed: bool, stateOpen: bool)

  predicate Holds(clause: Clause, facts: Facts, operation: Operation) {
    match clause
    case ProfileOffersOperation => operation in facts.operations
    case ProfileHas(c) => c in facts.capabilities
    case OperationIn(ops) => operation in ops
    case ComparatorExists => facts.comparator
    case InteractionNamed => facts.interactionNamed
    case FeatureStateOpen => facts.stateOpen
  }

  predicate Evaluates(p: Predicate, facts: Facts, operation: Operation) {
    p.All? && forall i :: 0 <= i < |p.clauses| ==> Holds(p.clauses[i], facts, operation)
  }

  predicate FamilyAllows(families: Families, f: nat, facet: Facet, a: Archetype) {
    && (f in families.streaming && !facet.Syntax? ==> StreamingCapability in a.capabilities)
    && (f in families.sql && !facet.Syntax? ==> a.name.DatabaseService?)
    && (f in families.editor && !facet.Syntax? ==> a.name.Cli?)
  }

  predicate CapabilityAllows(facet: Facet, a: Archetype) {
    && (facet.Captures? ==> CapturesCapability in a.capabilities)
    && (facet.Replacement? ==> ReplacementCapability in a.capabilities)
  }

  /** The direct test, check by check. */
  predicate Applies(families: Families, o: Obligation, a: Archetype, operation: Operation) {
    if !o.status.Mandatory? && !o.status.Conditional? then false
    else if operation !in a.operations || operation !in o.operations then false
    else if o.facet.Captures? && CapturesCapability !in a.capabilities then false
    else if o.facet.Replacement? && ReplacementCapability !in a.capabilities then false
    else if o.feature in families.streaming && !o.facet.Syntax? && StreamingCapability !in a.capabilities then false
    else if o.feature in families.sql && !o.facet.Syntax? && !a.name.DatabaseService? then false
    else if o.feature in families.editor && !o.facet.Syntax? && !a.name.Cli? then false
    else true
  }

  /** A profile of the archetype whose other facts are open. */
  function OpenFacts(a: Archetype): Facts { Facts(a.operations, a.capabilities, true, true, true) }

  /** The one disagreement: a search-iteration obligation of a feature without any search operation falls back to
      compiling, which the direct test accepts and the emitted predicate never does. */
  predicate FellBack(f: Feature, o: Obligation) {
    o.facet.SearchIteration? && o.status.Conditional? && f.operations * SEARCH_OPERATIONS == {}
  }

  /** What the emitted predicate says of any profile and vector: the operation is offered, and a conditional facet has
      the one fact it asks for. */
  lemma RuleExactly(facet: Facet, status: Status, facts: Facts, operation: Operation)
    ensures Evaluates(PredicateOf(facet, status), facts, operation) <==>
            && !status.Prohibited? && operation in facts.operations
            && (status.Conditional? ==>
                  && (facet.Captures? ==> CapturesCapability in facts.capabilities)
                  && (facet.Replacement? ==> ReplacementCapability in facts.capabilities)
                  && (facet.SearchIteration? ==> operation in SEARCH_OPERATIONS)
                  && (facet.Differential? ==> facts.comparator)
                  && (facet.Interaction? ==> facts.interactionNamed)
                  && (facet in STATE_FACETS ==> facts.stateOpen))
  {
    var p := PredicateOf(facet, status);
    if p.All? {
      assert p.clauses[0] == ProfileOffersOperation;
      if status.Conditional? {
        var second := p.clauses[1];
        assert p.clauses == [ProfileOffersOperation, second];
        assert Evaluates(p, facts, operation) <==>
          operation in facts.operations && Holds(second, facts, operation);
      } else {
        assert p.clauses == [ProfileOffersOperation];
      }
    }
  }

  /** The facets that ask for no more than that the feature's state is open. */
  const STATE_FACETS: set<Facet> :=
    {Syntax, CoreSemantics, UnicodeEncoding, OptionsState, HostOperation, Errors, ResourceTermination}

  /** The direct test is the emitted predicate under open facts, restricted to executable obligations, their operations,
      the feature families and the capabilities the facet needs, except for the fallback. */
  lemma AppliesIsThePredicate(
    families: Families, f: Feature, facet: Facet, case_: nat, a: Archetype, operation: Operation)
    ensures var o := Derive(f, facet, case_);
      Applies(families, o, a, operation) && !FellBack(f, o) <==>
      && !o.status.Informative?
      && operation in o.operations && Evaluates(o.rule, OpenFacts(a), operation)
      && FamilyAllows(families, f.id, facet, a) && CapabilityAllows(facet, a)
  {
    RuleExactly(facet, FacetStatus(f, facet), OpenFacts(a), operation);
    hide Evaluates, PredicateOf;
  }

  /** An accepted coordinate satisfies the emitted predicate exactly when it is not the fallback. */
  lemma AcceptedEvaluates(families: Families, f: Feature, facet: Facet, case_: nat, a: Archetype, operation: Operation)
    requires Applies(families, Derive(f, facet, case_), a, operation)
    ensures var o := Derive(f, facet, case_);
      Evaluates(o.rule, OpenFacts(a), operation) <==> !FellBack(f, o)
  {
    var o := Derive(f, facet, case_);
    AppliesIsThePredicate(families, f, facet, case_, a, operation);
    if FellBack(f, o) {
      assert o.operations == {Compile} && o.rule.clauses[1] == OperationIn(SEARCH_OPERATIONS);
    }
  }

  /** Whatever the facts, an accepted coordinate of the fallback fails its own predicate. */
  lemma FallbackNeverEvaluates(f: Feature, case_: nat, facts: Facts, operation: Operation)
    requires var o := Derive(f, SearchIteration, case_); FellBack(f, o) && operation in o.operations
    ensures !Evaluates(Derive(f, SearchIteration, case_).rule, facts, operation)
  {
    var o := Derive(f, SearchIteration, case_);
    assert o.rule.clauses[1] == OperationIn(SEARCH_OPERATIONS);
  }

  /** The fallback is reached by the search iteration of a feature that only compiles, on any archetype that compiles
      and is no exception for it. None of the feature groups of the source is such: the one without a search operation
      is of class replacement, for which search iteration is prohibited. */
  lemma FallbackIsAccepted(families: Families, a: Archetype, id: nat, category: Category, case_: nat)
    requires Compile in a.operations && FamilyAllows(families, id, SearchIteration, a)
    ensures var f := Feature(id, OtherClass(0), category, {Compile}, false, false, false, false);
      var o := Derive(f, SearchIteration, case_);
      FellBack(f, o) && Applies(families, o, a, Compile) && !Evaluates(o.rule, OpenFacts(a), Compile)
  {
    var f := Feature(id, OtherClass(0), category, {Compile}, false, false, false, false);
    assert f.operations * SEARCH_OPERATIONS == {};
    FallbackNeverEvaluates(f, case_, OpenFacts(a), Compile);
  }

  // ---------------------------------------------------------------------------
  // Building the obligations

  /** The obligations of a feature list: every feature, facet and case, once, in order. */
  function OfCases(f: Feature, facet: Facet, cases: seq<nat>): (r: seq<Obligation>)
    ensures |r| == |cases|
  {
    seq(|cases|, i requires 0 <= i < |cases| => Derive(f, facet, cases[i]))
  }

  ghost function OfFacets(f: Feature, cases: map<Facet, seq<nat>>, n: nat): seq<Obligation>
    requires n <= |FACETS| && forall x :: x in FACETS ==> x in cases
  {
    if n == 0 then [] else OfFacets(f, cases, n - 1) + OfCases(f, FACETS[n - 1], cases[FACETS[n - 1]])
  }

  ghost function OfFeatures(features: seq<Feature>, cases: map<Facet, seq<nat>>): seq<Obligation>
    requires forall x :: x in FACETS ==> x in cases
  {
    if features == [] then [] else
    OfFeatures(features[..|features| - 1], cases) + OfFacets(features[|features| - 1], cases, |FACETS|)
  }

  method BuildFacet(f: Feature, facet: Facet, cases: seq<nat>) returns (obligations: seq<Obligation>)
    ensures obligations == OfCases(f, facet, cases)
  {
    hide FacetStatus, FacetOperations, PredicateOf;
    var status := FacetStatus(f, facet);
    var operations := if status.Prohibited? then {} else FacetOperations(f, facet);
    obligations := [];
    for k := 0 to |cases|
      invariant |obligations| == k
      invariant forall j :: 0 <= j < k ==> obligations[j] == Derive(f, facet, cases[j])
    {
      obligations := obligations + [Obligation(f.id, facet, cases[k], status, operations, PredicateOf(facet, status))];
    }
    assert obligations == OfCases(f, facet, cases);
  }

  method BuildObligations(features: seq<Feature>, cases: map<Facet, seq<nat>>) returns (obligations: seq<Obligation>)
    requires forall x :: x in FACETS ==> x in cases
    ensures obligations == OfFeatures(features, cases)
  {
    hide Derive, OfCases;
    obligations := [];
    for i := 0 to |features|
      invariant obligations == OfFeatures(features[..i], cases)
    {
      ghost var before := obligations;
      for n := 0 to |FACETS|
        invariant obligations == before + OfFacets(features[i], cases, n)
      {
        assert FACETS[n] in FACETS;
        var built := BuildFacet(features[i], FACETS[n], cases[FACETS[n]]);
        obligations := obligations + built;
      }
      assert features[..i + 1][..i] == features[..i];
    }
    assert features[..|features|] == features;
  }

  /** Every built obligation is derived from one of the features. */
  lemma {:induction false} BuiltAreDerived(features: seq<Feature>, cases: map<Facet, seq<nat>>, o: Obligation)
    requires (forall x :: x in FACETS ==> x in cases) && o in OfFeatures(features, cases)
    ensures exists i, facet, c :: 0 <= i < |features| && o == Derive(features[i], facet, c)
  {
    var last := |features| - 1;
    if o in OfFeatures(features[..last], cases) {
      BuiltAreDerived(features[..last], cases, o);
      var i, facet, c :| 0 <= i < last && o == Derive(features[..last][i], facet, c);
      assert o == Derive(features[i], facet, c);
    } else {
      var facet, c := FacetsAreDerived(features[last], cases, |FACETS|, o);
      assert o == Derive(features[last], facet, c);
    }
  }

  lemma {:induction false} FacetsAreDerived(f: Feature, cases: map<Facet, seq<nat>>, n: nat, o: Obligation)
    returns (facet: Facet, c: nat)
    requires n <= |FACETS| && (forall x :: x in FACETS ==> x in cases) && o in OfFacets(f, cases, n)
    ensures o == Derive(f, facet, c)
  {
    if o in OfFacets(f, cases, n - 1) {
      facet, c := FacetsAreDerived(f, cases, n - 1, o);
    } else {
      facet := FACETS[n - 1];
      assert facet in FACETS;
      var k :| 0 <= k < |cases[facet]| && OfCases(f, facet, cases[facet])[k] == o;
      c := cases[facet][k];
    }
  }

  lemma InFacet(f: Feature, cases: map<Facet, seq<nat>>, n: nat, k: nat, j: nat)
    requires k < n <= |FACETS| && (forall x :: x in FACETS ==> x in cases)
    requires FACETS[k] in cases && j < |cases[FACETS[k]]|
    ensures Derive(f, FACETS[k], cases[FACETS[k]][j]) in OfFacets(f, cases, n)
    decreases n
  {
    assert FACETS[n - 1] in FACETS;
    if k < n - 1 {
      InFacet(f, cases, n - 1, k, j);
    } else {
      assert OfCases(f, FACETS[k], cases[FACETS[k]])[j] == Derive(f, FACETS[k], cases[FACETS[k]][j]);
    }
  }

  /** Every feature's every facet and case is built. */
  lemma {:induction false} AllAreBuilt(
    features: seq<Feature>, cases: map<Facet, seq<nat>>, i: nat, facet: Facet, j: nat)
    requires i < |features| && (forall x :: x in FACETS ==> x in cases) && facet in cases && j < |cases[facet]|
    ensures Derive(features[i], facet, cases[facet][j]) in OfFeatures(features, cases)
    decreases |features|
  {
    hide Derive, OfFacets;
    var last := |features| - 1;
    if i < last {
      AllAreBuilt(features[..last], cases, i, facet, j);
    } else {
      var k := IndexOf(facet);
      InFacet(features[last], cases, |FACETS|, k, j);
    }
  }

  lemma IndexOf(facet: Facet) returns (k: nat)
    ensures k < |FACETS| && FACETS[k] == facet
  {
    k := match facet
      case Syntax => 0 case CoreSemantics => 1 case SearchIteration => 2 case Captures => 3 case UnicodeEncoding => 4
      case OptionsState => 5 case HostOperation => 6 case Replacement => 7
      case Errors => 8 case ResourceTermination => 9
      case Interaction => 10 case Differential => 11;
  }

  function CaseTotal(cases: map<Facet, seq<nat>>, n: nat): nat
    requires n <= |FACETS| && forall x :: x in FACETS ==> x in cases
  {
    if n == 0 then 0 else
    assert FACETS[n - 1] in FACETS;
    CaseTotal(cases, n - 1) + |cases[FACETS[n - 1]]|
  }

  lemma {:induction false} FacetsLength(f: Feature, cases: map<Facet, seq<nat>>, n: nat)
    requires n <= |FACETS| && forall x :: x in FACETS ==> x in cases
    ensures |OfFacets(f, cases, n)| == CaseTotal(cases, n)
  {
    if n > 0 {
      assert FACETS[n - 1] in FACETS;
      FacetsLength(f, cases, n - 1);
    }
  }

  lemma OneMoreTime(n: int, c: int)
    ensures (n + 1) * c == n * c + c
  {
  }

  /** As many obligations as features times cases. */
  lemma {:induction false} BuiltLength(features: seq<Feature>, cases: map<Facet, seq<nat>>)
    requires forall x :: x in FACETS ==> x in cases
    ensures |OfFeatures(features, cases)| == |features| * CaseTotal(cases, |FACETS|)
    decreases |features|
  {
    hide OfFacets, CaseTotal;
    if features != [] {
      var last := |features| - 1;
      BuiltLength(features[..last], cases);
      FacetsLength(features[last], cases, |FACETS|);
      OneMoreTime(last, CaseTotal(cases, |FACETS|));
    }
  }

  lemma {:induction false} FacetsDistinct(f: Feature, cases: map<Facet, seq<nat>>, n: nat)
    requires n <= |FACETS| && (forall x :: x in FACETS ==> x in cases)
    requires forall x :: x in cases ==> Distinct(cases[x])
    ensures Distinct(OfFacets(f, cases, n))
    ensures forall o :: o in OfFacets(f, cases, n) ==> o.feature == f.id && o.facet in FACETS[..n]
  {
    hide FacetStatus, FacetOperations, PredicateOf;
    if n > 0 {
      var facet := FACETS[n - 1];
      assert facet in FACETS && FACETS[..n] == FACETS[..n - 1] + [facet];
      FacetsDistinct(f, cases, n - 1);
      var built := OfCases(f, facet, cases[facet]);
      forall k | 0 <= k < |built| ensures built[k].feature == f.id && built[k].facet == facet { }
      CasesDistinct(f, facet, cases[facet]);
      FacetIsNew(n);
      DistinctConcat(OfFacets(f, cases, n - 1), built);
    }
  }

  lemma FacetIsNew(n: nat)
    requires 0 < n <= |FACETS|
    ensures FACETS[n - 1] !in FACETS[..n - 1]
  {
  }

  lemma CasesDistinct(f: Feature, facet: Facet, cases: seq<nat>)
    requires Distinct(cases)
    ensures Distinct(OfCases(f, facet, cases))
  {
    hide FacetStatus, FacetOperations, PredicateOf;
    var built := OfCases(f, facet, cases);
    forall j, k | 0 <= j < k < |built| ensures built[j] != built[k] {
      assert built[j].case_ == cases[j] && built[k].case_ == cases[k];
    }
  }

  function Ids(features: seq<Feature>): (ids: seq<nat>)
    ensures |ids| == |features| && forall i :: 0 <= i < |features| ==> ids[i] == features[i].id
  {
    seq(|features|, i requires 0 <= i < |features| => features[i].id)
  }

  /** Nothing is built twice, when features have distinct identifiers and facets distinct cases. */
  lemma {:induction false} BuiltDistinct(features: seq<Feature>, cases: map<Facet, seq<nat>>)
    requires (forall x :: x in FACETS ==> x in cases) && (forall x :: x in cases ==> Distinct(cases[x]))
    requires Distinct(Ids(features))
    ensures Distinct(OfFeatures(features, cases))
    ensures forall o :: o in OfFeatures(features, cases) ==> o.feature in Ids(features)
    decreases |features|
  {
    hide OfFacets;
    if features != [] {
      var last := |features| - 1;
      assert Ids(features) == Ids(features[..last]) + [features[last].id];
      BuiltDistinct(features[..last], cases);
      FacetsDistinct(features[last], cases, |FACETS|);
      DistinctConcat(OfFeatures(features[..last], cases), OfFacets(features[last], cases, |FACETS|));
    }
  }

  // ---------------------------------------------------------------------------
  // Counting coordinates

  type Coordinate = (nat, Operation, Archetype)

  /** The applicable (obligation, operation, archetype) triples of obligation i. */
  ghost function ApplicableAt(
    families: Families, o: Obligation, archetypes: seq<Archetype>, operations: set<Operation>, i: nat): set<Coordinate>
  {
    set op, a | op in operations && a in archetypes && Applies(families, o, a, op) :: (i, op, a)
  }

  ghost function Applicable(
    families: Families, obligations: seq<Obligation>, archetypes: seq<Archetype>): set<Coordinate> {
    if obligations == [] then {} else
    var i := |obligations| - 1;
    Applicable(families, obligations[..i], archetypes)
    + ApplicableAt(families, obligations[i], archetypes, obligations[i].operations, i)
  }

  /** A counter agrees with a set of coordinates: at each key, the number of coordinates with that key. */
  ghost predicate Counts<K(!new)>(done: set<Coordinate>, key: Coordinate -> K, counter: multiset<K>) {
    forall k :: counter[k] == |Having(done, key, k)|
  }

  ghost function Having<K>(done: set<Coordinate>, key: Coordinate -> K, k: K): set<Coordinate> {
    set c | c in done && key(c) == k
  }

  lemma CountsMore<K(!new)>(done: set<Coordinate>, key: Coordinate -> K, counter: multiset<K>, c: Coordinate)
    requires Counts(done, key, counter) && c !in done
    ensures Counts(done + {c}, key, counter + multiset{key(c)})
  {
    forall k ensures (counter + multiset{key(c)})[k] == |Having(done + {c}, key, k)| {
      if k == key(c) {
        assert Having(done + {c}, key, k) == Having(done, key, k) + {c};
      } else {
        assert Having(done + {c}, key, k) == Having(done, key, k);
      }
    }
  }

  /** A counter that agrees with a set sums to its size. */
  lemma {:induction false} CountsSize<K(!new)>(done: set<Coordinate>, key: Coordinate -> K, counter: multiset<K>)
    requires Counts(done, key, counter)
    ensures |counter| == |done|
    decreases |done|
  {
    if done == {} {
      forall k ensures counter[k] == 0 { assert Having(done, key, k) == {}; }
      assert counter == multiset{};
    } else {
      var c :| c in done;
      var rest := done - {c};
      var less := counter - multiset{key(c)};
      assert c in Having(done, key, key(c));
      forall k ensures less[k] == |Having(rest, key, k)| {
        if k == key(c) {
          assert Having(rest, key, k) == Having(done, key, k) - {c};
        } else {
          assert Having(rest, key, k) == Having(done, key, k);
        }
      }
      CountsSize(rest, key, less);
      assert counter == less + multiset{key(c)};
    }
  }

  datatype Tally = Tally(
    units: multiset<Archetype>, facets: multiset<Facet>, categories: multiset<Category>,
    perArchetype: map<Archetype, multiset<Facet>>)

  function ArchetypeOf(c: Coordinate): Archetype { c.2 }

  function FacetOf(obligations: seq<Obligation>): Coordinate -> Facet {
    (c: Coordinate) => if c.0 < |obligations| then obligations[c.0].facet else Syntax
  }

  function CategoryOf(obligations: seq<Obligation>, features: map<nat, Feature>): Coordinate -> Category {
    (c: Coordinate) =>
      if c.0 < |obligations| && obligations[c.0].feature in features
      then features[obligations[c.0].feature].category else OtherCategory(0)
  }

  ghost predicate Balanced(
    obligations: seq<Obligation>, features: map<nat, Feature>, archetypes: seq<Archetype>, done: set<Coordinate>,
    t: Tally)
  {
    && Counts(done, ArchetypeOf, t.units)
    && Counts(done, FacetOf(obligations), t.facets)
    && Counts(done, CategoryOf(obligations, features), t.categories)
    && (forall a :: a in t.perArchetype <==> a in archetypes)
    && (forall a :: a in archetypes ==> Counts(Having(done, ArchetypeOf, a), FacetOf(obligations), t.perArchetype[a]))
  }

  function Incremented(t: Tally, a: Archetype, facet: Facet, category: Category): Tally
    requires a in t.perArchetype
  {
    Tally(
      t.units + multiset{a}, t.facets + multiset{facet}, t.categories + multiset{category},
      t.perArchetype[a := t.perArchetype[a] + multiset{facet}])
  }

  lemma BalancedMore(
    obligations: seq<Obligation>, features: map<nat, Feature>, archetypes: seq<Archetype>, done: set<Coordinate>,
    t: Tally, c: Coordinate)
    requires Balanced(obligations, features, archetypes, done, t) && c !in done && c.2 in archetypes
    ensures Balanced(obligations, features, archetypes, done + {c},
                     Incremented(t, c.2, FacetOf(obligations)(c), CategoryOf(obligations, features)(c)))
  {
    hide Counts;
    var (facet, category) := (FacetOf(obligations), CategoryOf(obligations, features));
    CountsMore(done, ArchetypeOf, t.units, c);
    CountsMore(done, facet, t.facets, c);
    CountsMore(done, category, t.categories, c);
    var t' := Incremented(t, c.2, facet(c), category(c));
    forall a | a in archetypes ensures Counts(Having(done + {c}, ArchetypeOf, a), facet, t'.perArchetype[a]) {
      if a == c.2 {
        CountsMore(Having(done, ArchetypeOf, a), facet, t.perArchetype[a], c);
        assert Having(done + {c}, ArchetypeOf, a) == Having(done, ArchetypeOf, a) + {c};
      } else {
        assert Having(done + {c}, ArchetypeOf, a) == Having(done, ArchetypeOf, a);
      }
    }
  }

  /** What the counters add up to: the applicable triples, in every breakdown, and archetype by archetype. */
  lemma BalancedSums(
    obligations: seq<Obligation>, features: map<nat, Feature>, archetypes: seq<Archetype>, done: set<Coordinate>,
    t: Tally)
    requires Balanced(obligations, features, archetypes, done, t)
    ensures |t.units| == |t.facets| == |t.categories| == |done|
    ensures forall a :: a in archetypes ==> |t.perArchetype[a]| == t.units[a]
  {
    CountsSize(done, ArchetypeOf, t.units);
    CountsSize(done, FacetOf(obligations), t.facets);
    CountsSize(done, CategoryOf(obligations, features), t.categories);
    forall a | a in archetypes ensures |t.perArchetype[a]| == t.units[a] {
      CountsSize(Having(done, ArchetypeOf, a), FacetOf(obligations), t.perArchetype[a]);
    }
  }

  lemma NoArchetypes(families: Families, o: Obligation, operation: Operation, i: nat)
    ensures ApplicableAt(families, o, [], {operation}, i) == {}
  {
  }

  lemma ApplicableStep(
    families: Families, o: Obligation, archetypes: seq<Archetype>, operation: Operation, i: nat, n: nat)
    requires n < |archetypes| && forall m :: 0 <= m < n ==> archetypes[m] != archetypes[n]
    ensures var (c, before) := ((i, operation, archetypes[n]),
                                 ApplicableAt(families, o, archetypes[..n], {operation}, i));
      && c !in before
      && ApplicableAt(families, o, archetypes[..n + 1], {operation}, i) ==
         if Applies(families, o, archetypes[n], operation) then before + {c} else before
  {
    hide Applies;
    assert archetypes[..n + 1] == archetypes[..n] + [archetypes[n]];
    assert archetypes[n] !in archetypes[..n];
  }

  method CountOperation(
    families: Families, obligations: seq<Obligation>, features: map<nat, Feature>, archetypes: seq<Archetype>,
    i: nat, operation: Operation, before: Tally, ghost done: set<Coordinate>)
    returns (t: Tally)
    requires i < |obligations| && obligations[i].feature in features
    requires forall m, n :: 0 <= m < n < |archetypes| ==> archetypes[m] != archetypes[n]
    requires Balanced(obligations, features, archetypes, done, before)
    requires forall a :: (i, operation, a) !in done
    ensures Balanced(obligations, features, archetypes,
                     done + ApplicableAt(families, obligations[i], archetypes, {operation}, i), t)
  {
    hide Balanced, Applies, ApplicableAt;
    t := before;
    var o := obligations[i];
    NoArchetypes(families, o, operation, i);
    ghost var reached := done;
    for n := 0 to |archetypes|
      invariant reached == done + ApplicableAt(families, o, archetypes[..n], {operation}, i)
      invariant Balanced(obligations, features, archetypes, reached, t)
    {
      var a := archetypes[n];
      ghost var c := (i, operation, a);
      ApplicableStep(families, o, archetypes, operation, i, n);
      assert c !in reached;
      if Applies(families, o, a, operation) {
        BalancedMore(obligations, features, archetypes, reached, t, c);
        HasArchetype(obligations, features, archetypes, reached, t, a);
        t := Incremented(t, a, o.facet, features[o.feature].category);
        reached := reached + {c};
      }
    }
    assert archetypes[..|archetypes|] == archetypes;
  }

  lemma HasArchetype(
    obligations: seq<Obligation>, features: map<nat, Feature>, archetypes: seq<Archetype>, done: set<Coordinate>,
    t: Tally, a: Archetype)
    requires Balanced(obligations, features, archetypes, done, t) && a in archetypes
    ensures a in t.perArchetype
  {
  }

  method CountObligation(
    families: Families, obligations: seq<Obligation>, features: map<nat, Feature>, archetypes: seq<Archetype>,
    i: nat, before: Tally, ghost done: set<Coordinate>)
    returns (t: Tally)
    requires i < |obligations| && obligations[i].feature in features
    requires forall m, n :: 0 <= m < n < |archetypes| ==> archetypes[m] != archetypes[n]
    requires Balanced(obligations, features, archetypes, done, before)
    requires forall c :: c in done ==> c.0 < i
    ensures Balanced(obligations, features, archetypes,
                     done + ApplicableAt(families, obligations[i], archetypes, obligations[i].operations, i), t)
  {
    hide Balanced;
    t := before;
    var o := obligations[i];
    var rest := o.operations;
    assert o.operations - rest == {};
    assert done + ApplicableAt(families, o, archetypes, {}, i) == done;
    while rest != {}
      invariant rest <= o.operations
      invariant Balanced(obligations, features, archetypes,
                         done + ApplicableAt(families, o, archetypes, o.operations - rest, i), t)
      decreases |rest|
    {
      var operation :| operation in rest;
      ghost var reached := done + ApplicableAt(families, o, archetypes, o.operations - rest, i);
      t := CountOperation(families, obligations, features, archetypes, i, operation, t, reached);
      assert o.operations - (rest - {operation}) == (o.operations - rest) + {operation};
      assert ApplicableAt(families, o, archetypes, o.operations - (rest - {operation}), i) ==
             ApplicableAt(families, o, archetypes, o.operations - rest, i)
             + ApplicableAt(families, o, archetypes, {operation}, i);
      rest := rest - {operation};
      assert done + ApplicableAt(families, o, archetypes, o.operations - rest, i) ==
             reached + ApplicableAt(families, o, archetypes, {operation}, i);
    }
    assert o.operations - rest == o.operations;
  }

  ghost predicate AllKnown(obligations: seq<Obligation>, features: map<nat, Feature>) {
    forall i :: 0 <= i < |obligations| ==> obligations[i].feature in features
  }

  lemma {:induction false} ApplicableBelow(
    families: Families, obligations: seq<Obligation>, archetypes: seq<Archetype>, c: Coordinate)
    requires c in Applicable(families, obligations, archetypes)
    ensures c.0 < |obligations|
  {
    var i := |obligations| - 1;
    if c in Applicable(families, obligations[..i], archetypes) {
      ApplicableBelow(families, obligations[..i], archetypes, c);
    }
  }

  /** The coordinates counted: an obligation of the list, one of its operations, and an archetype it applies to. */
  lemma {:induction false} ApplicableExactly(
    families: Families, obligations: seq<Obligation>, archetypes: seq<Archetype>, c: Coordinate)
    ensures c in Applicable(families, obligations, archetypes) <==>
            && c.0 < |obligations| && c.1 in obligations[c.0].operations && c.2 in archetypes
            && Applies(families, obligations[c.0], c.2, c.1)
  {
    hide Applies;
    if obligations != [] {
      var i := |obligations| - 1;
      ApplicableExactly(families, obligations[..i], archetypes, c);
    }
  }

  /** The triple loop: every counter agrees with the set of applicable triples. Fails only on an unknown feature. */
  method CoordinateUnits(
    families: Families, obligations: seq<Obligation>, features: map<nat, Feature>, archetypes: seq<Archetype>)
    returns (ok: bool, t: Tally)
    requires forall m, n :: 0 <= m < n < |archetypes| ==> archetypes[m] != archetypes[n]
    ensures ok <==> AllKnown(obligations, features)
    ensures ok ==> Balanced(obligations, features, archetypes, Applicable(families, obligations, archetypes), t)
    ensures ok ==> |t.units| == |t.facets| == |t.categories| == |Applicable(families, obligations, archetypes)|
    ensures ok ==> forall a :: a in archetypes ==> a in t.perArchetype && |t.perArchetype[a]| == t.units[a]
  {
    t := Tally(multiset{}, multiset{}, multiset{}, map a | a in archetypes :: multiset{});
    NothingCounted(obligations, features, archetypes, t);
    for i := 0 to |obligations|
      invariant AllKnown(obligations[..i], features)
      invariant Balanced(obligations, features, archetypes, Applicable(families, obligations[..i], archetypes), t)
    {
      hide Balanced;
      if obligations[i].feature !in features { return false, t; }
      ghost var done := Applicable(families, obligations[..i], archetypes);
      forall c | c in done ensures c.0 < i { ApplicableBelow(families, obligations[..i], archetypes, c); }
      t := CountObligation(families, obligations, features, archetypes, i, t, done);
      assert obligations[..i + 1][..i] == obligations[..i];
    }
    assert obligations[..|obligations|] == obligations;
    BalancedSums(obligations, features, archetypes, Applicable(families, obligations, archetypes), t);
    ok := true;
  }

  lemma NothingCounted(obligations: seq<Obligation>, features: map<nat, Feature>, archetypes: seq<Archetype>, t: Tally)
    requires t == Tally(multiset{}, multiset{}, multiset{}, map a | a in archetypes :: multiset{})
    ensures Balanced(obligations, features, archetypes, {}, t)
  {
    EmptyCounts({}, ArchetypeOf, t.units);
    EmptyCounts({}, FacetOf(obligations), t.facets);
    EmptyCounts({}, CategoryOf(obligations, features), t.categories);
    forall a | a in archetypes ensures Counts(Having({}, ArchetypeOf, a), FacetOf(obligations), t.perArchetype[a]) {
      EmptyCounts(Having({}, ArchetypeOf, a), FacetOf(obligations), t.perArchetype[a]);
    }
  }

  lemma EmptyCounts<K(!new)>(done: set<Coordinate>, key: Coordinate -> K, counter: multiset<K>)
    requires done == {} && counter == multiset{}
    ensures Counts(done, key, counter)
  {
    forall k ensures counter[k] == |Having(done, key, k)| { assert Having(done, key, k) == {}; }
  }
}
