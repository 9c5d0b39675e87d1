/**
 * The parameter-parser resolution engine. A `ParserManager` keeps three
 * pieces of mutable state: a registry from annotation to parser class, a
 * registry from parameter type to a default parser instance, and a list of
 * parser instances that deduplicates equal parsers.
 *
 * Java reflection is abstracted: an annotation is its identifier plus its
 * accessor methods (each with an optional Property index and the value it
 * returns), and looking up and invoking a parser constructor is the
 * manager's `instantiate` function.
 */
module ParserManagers {
  import opened Wrappers
  import opened ParameterParsers

  /** An annotation class (`Class<? extends Annotation>`), by name. */
  type AnnotationId = string

  /** A parser implementation class (`Class<? extends ParameterParser>`), by name. */
  type ParserClassId = string

  /** The enum-parameter marker annotation. */
  const EnumParam: AnnotationId := "EnumParam"

  /** A constructor argument: the value of an annotation accessor, or the parameter's type. */
  datatype Arg = StringArg(s: string) | IntArg(i: int) | BoolArg(b: bool) | ClassArg(t: TypeId)

  /** An accessor method of an annotation: its Property index when it has the marker, and its value. */
  datatype Accessor = Accessor(index: Option<int>, value: Arg)

  datatype Annotation = Annotation(id: AnnotationId, accessors: seq<Accessor>)

  /** A declared method parameter: annotations in declaration order, raw type, and name when present. */
  datatype Parameter = Parameter(annotations: seq<Annotation>, typeId: TypeId, isEnum: bool, name: Option<string>)

  /** The exceptions that can escape `getParameterParser`. */
  datatype Failure =
    | IllegalState(annotation: AnnotationId)     // no matching constructor, or the constructor threw
    | IllegalArgument(annotation: AnnotationId)  // getParserClass on an unregistered annotation
    | NullPointer                                // a gap in the positional arguments reaches getClass()
    | IndexOutOfBounds                           // a negative Property index reaches ArrayList.set

  // ---------------------------------------------------------------------
  // Registry lookup
  // ---------------------------------------------------------------------

  /** `registeredParsers.get(id) != null`. */
  predicate Registered(registry: map<AnnotationId, Option<ParserClassId>>, id: AnnotationId) {
    id in registry && registry[id].Some?
  }

  /** Position of the first annotation, in declaration order, that has a registered parser. */
  function FirstRegistered(annotations: seq<Annotation>, registry: map<AnnotationId, Option<ParserClassId>>): (r: Option<nat>)
    ensures r.Some? ==> r.value < |annotations| && Registered(registry, annotations[r.value].id)
    ensures r.Some? ==> forall j :: 0 <= j < r.value ==> !Registered(registry, annotations[j].id)
    ensures r.None? ==> forall j :: 0 <= j < |annotations| ==> !Registered(registry, annotations[j].id)
  {
    if annotations == [] then None
    else if Registered(registry, annotations[0].id) then Some(0)
    else match FirstRegistered(annotations[1..], registry)
      case None => None
      case Some(i) => Some(i + 1)
  }

  // ---------------------------------------------------------------------
  // Constructor arguments taken from an annotation
  // ---------------------------------------------------------------------

  /** Length of the argument list: grown to `index + 1` by each marked accessor, in order. */
  function Slots(accessors: seq<Accessor>): nat {
    if accessors == [] then 0
    else
      var before := Slots(accessors[..|accessors| - 1]);
      match accessors[|accessors| - 1].index
      case None => before
      case Some(k) => if k >= before then k + 1 else before
  }

  /** The value of the last accessor marked with index `k`, or null when none is. */
  function LastValueAt(accessors: seq<Accessor>, k: int): Option<Arg> {
    if accessors == [] then None
    else if accessors[|accessors| - 1].index == Some(k) then Some(accessors[|accessors| - 1].value)
    else LastValueAt(accessors[..|accessors| - 1], k)
  }

  predicate NonNegativeIndices(accessors: seq<Accessor>) {
    forall i :: 0 <= i < |accessors| && accessors[i].index.Some? ==> accessors[i].index.value >= 0
  }

  /** No two marked accessors share an index. */
  predicate DistinctIndices(accessors: seq<Accessor>) {
    forall i, j :: 0 <= i < j < |accessors| && accessors[i].index.Some? ==> accessors[i].index != accessors[j].index
  }

  /** Some index below `Slots` has no accessor, so its argument stays null. */
  predicate HasGap(accessors: seq<Accessor>) {
    exists k :: 0 <= k < Slots(accessors) && LastValueAt(accessors, k) == None
  }

  /** The positional argument list built from the marked accessors (None is Java's null). */
  function ConstructorArguments(accessors: seq<Accessor>): Result<seq<Option<Arg>>, Failure> {
    if NonNegativeIndices(accessors) then Ok(seq(Slots(accessors), k => LastValueAt(accessors, k)))
    else Err(IndexOutOfBounds)
  }

  /** For the enum marker, the parameter's type is appended as a last argument. */
  function WithEnumType(parameter: Parameter, annotation: Annotation, args: seq<Option<Arg>>): seq<Option<Arg>> {
    if annotation.id == EnumParam then args + [Some(ClassArg(parameter.typeId))] else args
  }

  /** The arguments with nulls removed, or None when one of them is null. */
  function AllPresent(params: seq<Option<Arg>>): (r: Option<seq<Arg>>)
    ensures r.Some? <==> forall i :: 0 <= i < |params| ==> params[i].Some?
    ensures r.Some? ==> |r.value| == |params| && forall i :: 0 <= i < |params| ==> params[i] == Some(r.value[i])
  {
    if params == [] then Some([])
    else match AllPresent(params[..|params| - 1])
      case None => None
      case Some(values) =>
        match params[|params| - 1]
        case None => None
        case Some(v) => Some(values + [v])
  }

  /** The argument values the parser constructor is called with, or the exception raised before the call. */
  function ConstructorCall(parameter: Parameter, annotation: Annotation): Result<seq<Arg>, Failure> {
    match ConstructorArguments(annotation.accessors)
    case Err(e) => Err(e)
    case Ok(args) =>
      match AllPresent(WithEnumType(parameter, annotation, args))
      case None => Err(NullPointer)
      case Some(values) => Ok(values)
  }

  /** Every non-negative marked index lies below `Slots`, and the largest one is `Slots - 1`. */
  lemma {:induction false} SlotsIsOnePastLargestIndex(accessors: seq<Accessor>)
    ensures forall i :: 0 <= i < |accessors| && accessors[i].index.Some? && accessors[i].index.value >= 0 ==>
              accessors[i].index.value < Slots(accessors)
    ensures Slots(accessors) > 0 ==> exists i :: 0 <= i < |accessors| && accessors[i].index == Some(Slots(accessors) - 1)
  {
    if accessors != [] {
      var n := |accessors|;
      var before := accessors[..n - 1];
      SlotsIsOnePastLargestIndex(before);
      forall i | 0 <= i < n - 1 ensures accessors[i] == before[i] { }
      if Slots(accessors) > 0 && Slots(accessors) == Slots(before) {
        var i :| 0 <= i < |before| && before[i].index == Some(Slots(before) - 1);
        assert accessors[i] == before[i];
      }
    }
  }

  /** No accessor is marked with an index at or beyond `Slots`. */
  lemma LastValueAtBeyondSlots(accessors: seq<Accessor>, k: int)
    requires k >= Slots(accessors)
    ensures LastValueAt(accessors, k) == None
  {
    SlotsIsOnePastLargestIndex(accessors);
    LastValueAtUnmarked(accessors, k);
  }

  /** An index no accessor is marked with holds null. */
  lemma {:induction false} LastValueAtUnmarked(accessors: seq<Accessor>, k: int)
    requires forall i :: 0 <= i < |accessors| ==> accessors[i].index != Some(k)
    ensures LastValueAt(accessors, k) == None
  {
    if accessors != [] {
      var before := accessors[..|accessors| - 1];
      assert forall i :: 0 <= i < |before| ==> before[i] == accessors[i];
      LastValueAtUnmarked(before, k);
    }
  }

  /** When several accessors share an index, the one met last wins. */
  lemma {:induction false} LastMarkedWins(accessors: seq<Accessor>, k: int, j: nat)
    requires j < |accessors| && accessors[j].index == Some(k)
    requires forall l :: j < l < |accessors| ==> accessors[l].index != Some(k)
    ensures LastValueAt(accessors, k) == Some(accessors[j].value)
  {
    var n := |accessors|;
    if j < n - 1 {
      var before := accessors[..n - 1];
      assert forall l :: 0 <= l < |before| ==> before[l] == accessors[l];
      LastMarkedWins(before, k, j);
    }
  }

  /** With distinct indices, the value at `k` is the value of the one accessor marked `k`. */
  lemma {:induction false} LastValueAtDistinct(accessors: seq<Accessor>, k: int, v: Arg)
    requires DistinctIndices(accessors)
    ensures LastValueAt(accessors, k) == Some(v) <==> Accessor(Some(k), v) in accessors
  {
    if accessors != [] {
      var n := |accessors|;
      var before := accessors[..n - 1];
      assert forall l :: 0 <= l < |before| ==> before[l] == accessors[l];
      assert accessors == before + [accessors[n - 1]];
      if accessors[n - 1].index == Some(k) {
        assert forall l :: 0 <= l < |before| ==> before[l].index != Some(k);
      } else {
        LastValueAtDistinct(before, k, v);
      }
    }
  }

  /** An accessor without the Property marker leaves the argument list as it was. */
  lemma ArgumentsAfterUnmarked(done: seq<Accessor>, a: Accessor)
    requires a.index.None?
    ensures seq(Slots(done + [a]), k => LastValueAt(done + [a], k)) == seq(Slots(done), k => LastValueAt(done, k))
  {
    assert (done + [a])[..|done|] == done;
  }

  /** A marked accessor extends the list to its index and stores its value there. */
  lemma ArgumentsAfterMarked(done: seq<Accessor>, a: Accessor, params: seq<Option<Arg>>)
    requires a.index.Some? && a.index.value >= 0
    requires |params| == if a.index.value >= Slots(done) then a.index.value + 1 else Slots(done)
    requires params[a.index.value] == Some(a.value)
    requires forall k :: 0 <= k < |params| && k != a.index.value ==> params[k] == LastValueAt(done, k)
    ensures params == seq(Slots(done + [a]), k => LastValueAt(done + [a], k))
  {
    assert (done + [a])[..|done|] == done;
  }

  /** With distinct indices, a marked accessor occurs at most once. */
  lemma {:induction false} MarkedAtMostOnce(a: seq<Accessor>, x: Accessor)
    requires DistinctIndices(a) && x.index.Some?
    ensures multiset(a)[x] <= 1
  {
    if a != [] {
      var n := |a|;
      var before := a[..n - 1];
      assert a == before + [a[n - 1]];
      assert forall l :: 0 <= l < |before| ==> before[l] == a[l];
      MarkedAtMostOnce(before, x);
      if a[n - 1] == x {
        assert forall l :: 0 <= l < |before| ==> before[l].index != x.index;
        assert x !in before;
      }
    }
  }

  /** An accessor found at two positions occurs at least twice. */
  lemma OccursTwice(b: seq<Accessor>, i: nat, j: nat)
    requires i < j < |b|
    ensures b[i] == b[j] ==> multiset(b)[b[i]] >= 2
  {
    assert b == b[..j] + b[j..];
    assert b[..j][i] == b[i];
    assert b[j..][0] == b[j];
  }

  /** Distinct indices survive any reordering of the accessors. */
  lemma DistinctIndicesPermuted(a: seq<Accessor>, b: seq<Accessor>)
    requires multiset(a) == multiset(b) && DistinctIndices(a)
    ensures DistinctIndices(b)
  {
    forall i, j | 0 <= i < j < |b| && b[i].index.Some?
      ensures b[i].index != b[j].index
    {
      OccursTwice(b, i, j);
      MarkedAtMostOnce(a, b[i]);
      assert b[i] in multiset(a) && b[j] in multiset(a);
      var p :| 0 <= p < |a| && a[p] == b[i];
      var q :| 0 <= q < |a| && a[q] == b[j];
    }
  }

  /** With distinct indices, the order in which accessors are met does not change the arguments. */
  lemma ArgumentsIgnoreAccessorOrder(a: seq<Accessor>, b: seq<Accessor>)
    requires multiset(a) == multiset(b)
    requires DistinctIndices(a)
    ensures ConstructorArguments(a) == ConstructorArguments(b)
  {
    DistinctIndicesPermuted(a, b);
    assert forall x :: x in a <==> x in b by {
      forall x ensures x in a <==> x in b {
        assert x in a <==> x in multiset(a);
        assert x in b <==> x in multiset(b);
      }
    }
    assert NonNegativeIndices(a) ==> NonNegativeIndices(b) by {
      if NonNegativeIndices(a) {
        forall i | 0 <= i < |b| && b[i].index.Some? ensures b[i].index.value >= 0 {
          assert b[i] in a;
        }
      }
    }
    assert NonNegativeIndices(b) ==> NonNegativeIndices(a) by {
      if NonNegativeIndices(b) {
        forall i | 0 <= i < |a| && a[i].index.Some? ensures a[i].index.value >= 0 {
          assert a[i] in b;
        }
      }
    }
    SlotsIsOnePastLargestIndex(a);
    SlotsIsOnePastLargestIndex(b);
    if Slots(a) > 0 {
      var i :| 0 <= i < |a| && a[i].index == Some(Slots(a) - 1);
      assert a[i] in b;
    }
    if Slots(b) > 0 {
      var i :| 0 <= i < |b| && b[i].index == Some(Slots(b) - 1);
      assert b[i] in a;
    }
    assert Slots(a) == Slots(b);
    forall k | 0 <= k < Slots(a) ensures LastValueAt(a, k) == LastValueAt(b, k) {
      ValueAtIgnoresOrder(a, b, k);
    }
    var sa := seq(Slots(a), k => LastValueAt(a, k));
    var sb := seq(Slots(b), k => LastValueAt(b, k));
    assert sa == sb;
  }

  lemma ValueAtIgnoresOrder(a: seq<Accessor>, b: seq<Accessor>, k: int)
    requires forall x :: x in a <==> x in b
    requires DistinctIndices(a) && DistinctIndices(b)
    ensures LastValueAt(a, k) == LastValueAt(b, k)
  {
    match LastValueAt(a, k)
    case Some(v) =>
      LastValueAtDistinct(a, k, v);
      LastValueAtDistinct(b, k, v);
    case None =>
      match LastValueAt(b, k)
      case Some(w) =>
        LastValueAtDistinct(a, k, w);
        LastValueAtDistinct(b, k, w);
      case None =>
  }

  /**
   * The constructor receives, in order, the value at every index below `Slots`
   * and then, for the enum marker only, the parameter's type.
   */
  lemma ConstructorCallArguments(parameter: Parameter, annotation: Annotation)
    requires ConstructorCall(parameter, annotation).Ok?
    ensures var values := ConstructorCall(parameter, annotation).value;
      && |values| == Slots(annotation.accessors) + (if annotation.id == EnumParam then 1 else 0)
      && (forall k :: 0 <= k < Slots(annotation.accessors) ==> LastValueAt(annotation.accessors, k) == Some(values[k]))
      && (annotation.id == EnumParam ==> values[|values| - 1] == ClassArg(parameter.typeId))
  {
    var accessors := annotation.accessors;
    var args := seq(Slots(accessors), k => LastValueAt(accessors, k));
    assert ConstructorArguments(accessors) == Ok(args);
    var params := WithEnumType(parameter, annotation, args);
    assert forall k :: 0 <= k < |args| ==> params[k] == args[k];
  }

  /**
   * The constructor is not reached when a Property index is negative, nor when
   * an index below `Slots` has no accessor; nothing else stops it.
   */
  lemma ConstructorCallFailures(parameter: Parameter, annotation: Annotation)
    ensures ConstructorCall(parameter, annotation) == Err(IndexOutOfBounds) <==> !NonNegativeIndices(annotation.accessors)
    ensures ConstructorCall(parameter, annotation) == Err(NullPointer) <==>
      NonNegativeIndices(annotation.accessors) && HasGap(annotation.accessors)
    ensures ConstructorCall(parameter, annotation).Err? ==>
      ConstructorCall(parameter, annotation).error in {IndexOutOfBounds, NullPointer}
  {
    var accessors := annotation.accessors;
    if NonNegativeIndices(accessors) {
      var args := seq(Slots(accessors), k => LastValueAt(accessors, k));
      assert ConstructorArguments(accessors) == Ok(args);
      var params := WithEnumType(parameter, annotation, args);
      assert forall k :: 0 <= k < |args| ==> params[k] == args[k];
      assert forall k :: |args| <= k < |params| ==> params[k].Some?;
      if HasGap(accessors) {
        var k :| 0 <= k < Slots(accessors) && LastValueAt(accessors, k) == None;
        assert params[k].None?;
      }
    }
  }

  // ---------------------------------------------------------------------
  // The parser cache
  // ---------------------------------------------------------------------

  /** Position of the first cached parser whose configuration equals `config`. */
  function FirstEquivalent(cache: seq<ParameterParser>, config: ParserConfig): (r: Option<nat>)
    reads cache
    ensures r.Some? ==> r.value < |cache| && cache[r.value].Config() == config
    ensures r.Some? ==> forall j :: 0 <= j < r.value ==> cache[j].Config() != config
    ensures r.None? ==> forall j :: 0 <= j < |cache| ==> cache[j].Config() != config
  {
    if cache == [] then None
    else if cache[0].Config() == config then Some(0)
    else match FirstEquivalent(cache[1..], config)
      case None => None
      case Some(i) => Some(i + 1)
  }

  /** No two cached parsers are equal. */
  predicate NoDuplicates(cache: seq<ParameterParser>)
    reads cache
  {
    forall i, j :: 0 <= i < j < |cache| ==> cache[i].Config() != cache[j].Config()
  }

  // ---------------------------------------------------------------------
  // Resolution
  // ---------------------------------------------------------------------

  /** The label after back-filling: an unset label is replaced by the parameter name when there is one. */
  function BackFilledLabel(current: Option<string>, name: Option<string>): (r: Option<string>)
    ensures r == current || (IsUnset(current) && r == name)
    ensures IsUnset(current) && name.Some? ==> r == name
    ensures !(IsUnset(current) && name.Some?) ==> r == current
  {
    if IsUnset(current) && name.Some? then name else current
  }

  function WithBackFilledLabel(config: ParserConfig, name: Option<string>): ParserConfig {
    config.(displayLabel := BackFilledLabel(config.displayLabel, name))
  }

  /** Where `getParameterParser` takes its parser from, before back-filling and caching. */
  datatype Source =
    | FromAnnotation(index: nat, config: ParserConfig)
    | FromDefault(parser: ParameterParser)
    | FromEnum(config: ParserConfig)
    | Unresolved
    | Failed(failure: Failure)

  class ParserManager {
    var defaultParsers: map<TypeId, ParameterParser?>
    var registeredParsers: map<AnnotationId, Option<ParserClassId>>
    var cachedParsers: seq<ParameterParser>

    /**
     * `getConstructor(types).newInstance(values)` on a parser class: the
     * configuration of the new instance, or None when there is no
     * constructor for the argument types or the constructor throws.
     */
    const instantiate: (ParserClassId, seq<Arg>) -> Option<ParserConfig>

    /** Every default parser is the cached instance. */
    ghost predicate Valid()
      reads this
    {
      forall t :: t in defaultParsers && defaultParsers[t] != null ==> defaultParsers[t] in cachedParsers
    }

    constructor (instantiate: (ParserClassId, seq<Arg>) -> Option<ParserConfig>)
      ensures Valid()
      ensures defaultParsers == map[] && registeredParsers == map[] && cachedParsers == []
      ensures this.instantiate == instantiate
    {
      defaultParsers := map[];
      registeredParsers := map[];
      cachedParsers := [];
      this.instantiate := instantiate;
    }

    /** `isParserRegistered`: the registry holds a non-null class for the annotation. */
    predicate IsParserRegistered(identifier: AnnotationId): (b: bool)
      reads this
      ensures b <==> identifier in registeredParsers && registeredParsers[identifier] != None
    {
      Registered(registeredParsers, identifier)
    }

    /** Registers (or re-registers) the parser class for an annotation; a null class unregisters it. */
    method RegisterParser(identifier: AnnotationId, parser: Option<ParserClassId>)
      requires Valid()
      modifies this`registeredParsers
      ensures Valid()
      ensures registeredParsers == old(registeredParsers)[identifier := parser]
      ensures IsParserRegistered(identifier) <==> parser.Some?
      ensures forall other :: other != identifier ==> IsParserRegistered(other) == old(IsParserRegistered(other))
    {
      registeredParsers := registeredParsers[identifier := parser];
    }

    /** `getParserClass`: the registered class, or IllegalArgumentException. */
    function GetParserClass(identifier: AnnotationId): (r: Result<ParserClassId, Failure>)
      reads this
      ensures r.Ok? <==> IsParserRegistered(identifier)
      ensures r.Ok? ==> registeredParsers[identifier] == Some(r.value)
      ensures r.Err? ==> r.error == IllegalArgument(identifier)
    {
      if identifier in registeredParsers && registeredParsers[identifier].Some? then Ok(registeredParsers[identifier].value)
      else Err(IllegalArgument(identifier))
    }

    /** `cacheParser`: the first cached parser equal to `parser`, or `parser` itself, appended. */
    method CacheParser(parser: ParameterParser?) returns (r: ParameterParser?)
      requires Valid()
      modifies this`cachedParsers
      ensures Valid()
      ensures parser == null ==> r == null && cachedParsers == old(cachedParsers)
      ensures parser != null ==>
        match FirstEquivalent(old(cachedParsers), parser.Config())
        case Some(i) => r == old(cachedParsers)[i] && cachedParsers == old(cachedParsers)
        case None => r == parser && cachedParsers == old(cachedParsers) + [parser]
      ensures NoDuplicates(old(cachedParsers)) ==> NoDuplicates(cachedParsers)
    {
      if parser == null {
        return null;
      }
      var i := 0;
      while i < |cachedParsers|
        invariant 0 <= i <= |cachedParsers|
        invariant forall j :: 0 <= j < i ==> cachedParsers[j].Config() != parser.Config()
      {
        if Equivalent(cachedParsers[i], parser) {
          return cachedParsers[i];
        }
        i := i + 1;
      }
      cachedParsers := cachedParsers + [parser];
      r := parser;
    }

    /** `setDefaultParserForType`: the cached instance equal to `parser` becomes the default for the type. */
    method SetDefaultParserForType(targetType: TypeId, parser: ParameterParser?)
      requires Valid()
      modifies this`cachedParsers, this`defaultParsers
      ensures Valid()
      ensures targetType in defaultParsers
      ensures defaultParsers == old(defaultParsers)[targetType := defaultParsers[targetType]]
      ensures parser == null ==> defaultParsers[targetType] == null && cachedParsers == old(cachedParsers)
      ensures parser != null ==>
        && defaultParsers[targetType] != null
        && Equivalent(defaultParsers[targetType], parser)
        && match FirstEquivalent(old(cachedParsers), parser.Config())
           case Some(i) => defaultParsers[targetType] == old(cachedParsers)[i] && cachedParsers == old(cachedParsers)
           case None => defaultParsers[targetType] == parser && cachedParsers == old(cachedParsers) + [parser]
    {
      var cached := CacheParser(parser);
      defaultParsers := defaultParsers[targetType := cached];
    }

    /** `extractParserConstructorArguments`: the positional arguments from the marked accessors. */
    method ExtractParserConstructorArguments(annotation: Annotation) returns (r: Result<seq<Option<Arg>>, Failure>)
      ensures r == ConstructorArguments(annotation.accessors)
    {
      var accessors := annotation.accessors;
      var params: seq<Option<Arg>> := [];
      var m := 0;
      while m < |accessors|
        invariant 0 <= m <= |accessors|
        invariant NonNegativeIndices(accessors[..m])
        invariant params == seq(Slots(accessors[..m]), k => LastValueAt(accessors[..m], k))
      {
        var done := accessors[..m];
        assert accessors[..m + 1] == done + [accessors[m]];
        match accessors[m].index {
          case None =>
            ArgumentsAfterUnmarked(done, accessors[m]);
          case Some(index) =>
            while index >= |params|
              invariant |params| == Slots(done) || Slots(done) < |params| <= index + 1
              invariant forall k :: 0 <= k < |params| ==> params[k] == LastValueAt(done, k)
              decreases index - |params|
            {
              LastValueAtBeyondSlots(done, |params|);
              params := params + [None];
            }
            if index < 0 {
              assert !NonNegativeIndices(accessors) by {
                assert accessors[m].index.value < 0;
              }
              return Err(IndexOutOfBounds);
            }
            params := params[index := Some(accessors[m].value)];
            ArgumentsAfterMarked(done, accessors[m], params);
        }
        m := m + 1;
      }
      assert accessors[..m] == accessors;
      r := Ok(params);
    }

    /** The outcome of building a parser from an annotation whose class is registered. */
    function Built(parameter: Parameter, annotation: Annotation): Result<ParserConfig, Failure>
      reads this
    {
      match ConstructorCall(parameter, annotation)
      case Err(e) => Err(e)
      case Ok(values) =>
        match GetParserClass(annotation.id)
        case Err(e) => Err(e)
        case Ok(parserClass) =>
          match instantiate(parserClass, values)
          case None => Err(IllegalState(annotation.id))
          case Some(config) => Ok(config)
    }

    /** `buildParameterParser`: null for an unregistered annotation, else a new parser or an exception. */
    method BuildParameterParser(parameter: Parameter, annotation: Annotation) returns (r: Result<ParameterParser?, Failure>)
      ensures !IsParserRegistered(annotation.id) ==> r == Ok(null)
      ensures IsParserRegistered(annotation.id) ==>
        match Built(parameter, annotation)
        case Err(e) => r == Err(e)
        case Ok(config) => r.Ok? && r.value != null && fresh(r.value) && r.value.Config() == config
    {
      if !IsParserRegistered(annotation.id) {
        return Ok(null);
      }
      var identifier := annotation.id;
      var extracted := ExtractParserConstructorArguments(annotation);
      if extracted.Err? {
        return Err(extracted.error);
      }
      var params := WithEnumType(parameter, annotation, extracted.value);
      // the runtime class of every argument is taken in order; a null one throws
      var values: seq<Arg> := [];
      var i := 0;
      while i < |params|
        invariant 0 <= i <= |params|
        invariant AllPresent(params[..i]) == Some(values)
      {
        if params[i].None? {
          return Err(NullPointer);
        }
        assert params[..i + 1] == params[..i] + [params[i]];
        values := values + [params[i].value];
        i := i + 1;
      }
      assert params[..i] == params;
      var parserClass := GetParserClass(identifier).value;
      var created := instantiate(parserClass, values);
      if created.None? {
        return Err(IllegalState(identifier));
      }
      var p := new ParameterParser(created.value.kind, created.value.displayLabel, created.value.defaultValue);
      r := Ok(p);
    }

    /** The source `getParameterParser` draws on, in its priority order. */
    ghost function SourceFor(parameter: Parameter): Source
      reads this
    {
      match FirstRegistered(parameter.annotations, registeredParsers)
      case Some(i) =>
        (match Built(parameter, parameter.annotations[i])
         case Err(e) => Failed(e)
         case Ok(config) => FromAnnotation(i, config))
      case None =>
        if parameter.typeId in defaultParsers && defaultParsers[parameter.typeId] != null then
          FromDefault(defaultParsers[parameter.typeId])
        else if parameter.isEnum then
          FromEnum(ParserConfig(EnumKind(parameter.typeId), Some(""), ""))
        else
          Unresolved
    }

    /** `r` is the first cached parser equal to `config`. */
    ghost predicate HandsOut(r: Result<ParameterParser?, Failure>, config: ParserConfig)
      reads this, cachedParsers
    {
      && r.Ok? && r.value != null
      && var k := FirstEquivalent(cachedParsers, config);
         k.Some? && cachedParsers[k.value] == r.value
    }

    /** The loop over the annotations of `getParameterParser`: the first registered one builds the parser. */
    method FirstAnnotationParser(parameter: Parameter) returns (r: Result<ParameterParser?, Failure>)
      ensures match FirstRegistered(parameter.annotations, registeredParsers)
        case None => r == Ok(null)
        case Some(i) =>
          match Built(parameter, parameter.annotations[i])
          case Err(e) => r == Err(e)
          case Ok(config) => r.Ok? && r.value != null && fresh(r.value) && r.value.Config() == config
    {
      var annotations := parameter.annotations;
      var parser: ParameterParser? := null;
      var i := 0;
      while i < |annotations|
        invariant 0 <= i <= |annotations|
        invariant parser == null
        invariant forall j :: 0 <= j < i ==> !IsParserRegistered(annotations[j].id)
      {
        var built := BuildParameterParser(parameter, annotations[i]);
        if built.Err? {
          assert FirstRegistered(annotations, registeredParsers) == Some(i);
          return Err(built.error);
        }
        parser := built.value;
        if parser != null {
          assert FirstRegistered(annotations, registeredParsers) == Some(i);
          break;
        }
        i := i + 1;
      }
      r := Ok(parser);
    }

    /** `getParameterParser`: resolve, back-fill the label, deduplicate through the cache. */
    method GetParameterParser(parameter: Parameter) returns (r: Result<ParameterParser?, Failure>)
      requires Valid()
      modifies this`cachedParsers, cachedParsers
      ensures Valid()
      ensures registeredParsers == old(registeredParsers) && defaultParsers == old(defaultParsers)
      ensures cachedParsers == old(cachedParsers) || (r.Ok? && r.value != null && fresh(r.value) && cachedParsers == old(cachedParsers) + [r.value])
      ensures match old(SourceFor(parameter))
        case Failed(e) => r == Err(e) && cachedParsers == old(cachedParsers)
        case Unresolved => r == Ok(null) && cachedParsers == old(cachedParsers)
        case FromAnnotation(_, config) => HandsOut(r, WithBackFilledLabel(config, parameter.name))
        case FromEnum(config) => HandsOut(r, WithBackFilledLabel(config, parameter.name))
        case FromDefault(p) =>
          && HandsOut(r, WithBackFilledLabel(old(p.Config()), parameter.name))
          && cachedParsers == old(cachedParsers)
          && p.displayLabel == BackFilledLabel(old(p.displayLabel), parameter.name)
      ensures forall p :: p in old(cachedParsers) && old(SourceFor(parameter)) != FromDefault(p) ==> p.displayLabel == old(p.displayLabel)
    {
      var built := FirstAnnotationParser(parameter);
      if built.Err? {
        return Err(built.error);
      }
      var parser := built.value;
      if parser == null && parameter.typeId in defaultParsers {
        parser := defaultParsers[parameter.typeId];
      }
      if parser == null && parameter.isEnum {
        parser := new ParameterParser(EnumKind(parameter.typeId), Some(""), "");
      }
      if parser == null {
        // cacheParser(null) is null
        return Ok(null);
      }
      var cached := BackFillAndCache(parser, parameter.name);
      r := Ok(cached);
    }

    /**
     * `getParameterParser` as evidently intended: the label is back-filled on a
     * copy of the default parser, so no parser already handed out or cached
     * changes, and the cache keeps at most one parser per configuration.
     */
    method GetParameterParserWithCopiedDefault(parameter: Parameter) returns (r: Result<ParameterParser?, Failure>)
      requires Valid()
      modifies this`cachedParsers
      ensures Valid()
      ensures registeredParsers == old(registeredParsers) && defaultParsers == old(defaultParsers)
      ensures cachedParsers == old(cachedParsers) || (r.Ok? && r.value != null && fresh(r.value) && cachedParsers == old(cachedParsers) + [r.value])
      ensures match old(SourceFor(parameter))
        case Failed(e) => r == Err(e) && cachedParsers == old(cachedParsers)
        case Unresolved => r == Ok(null) && cachedParsers == old(cachedParsers)
        case FromAnnotation(_, config) => HandsOut(r, WithBackFilledLabel(config, parameter.name))
        case FromEnum(config) => HandsOut(r, WithBackFilledLabel(config, parameter.name))
        case FromDefault(p) => HandsOut(r, WithBackFilledLabel(p.Config(), parameter.name))
      ensures NoDuplicates(old(cachedParsers)) ==> NoDuplicates(cachedParsers)
    {
      var resolved := ResolveToFreshParser(parameter);
      if resolved.Err? {
        return Err(resolved.error);
      }
      if resolved.value == null {
        return Ok(null);
      }
      var cached := BackFillAndCache(resolved.value, parameter.name);
      r := Ok(cached);
    }

    /** The three sources of the corrected resolution; the default parser is copied, never handed out itself. */
    method ResolveToFreshParser(parameter: Parameter) returns (r: Result<ParameterParser?, Failure>)
      ensures match SourceFor(parameter)
        case Failed(e) => r == Err(e)
        case Unresolved => r == Ok(null)
        case FromAnnotation(_, config) => r.Ok? && r.value != null && fresh(r.value) && r.value.Config() == config
        case FromEnum(config) => r.Ok? && r.value != null && fresh(r.value) && r.value.Config() == config
        case FromDefault(p) => r.Ok? && r.value != null && fresh(r.value) && r.value.Config() == p.Config()
    {
      var built := FirstAnnotationParser(parameter);
      if built.Err? {
        return Err(built.error);
      }
      var parser := built.value;
      if parser == null && parameter.typeId in defaultParsers {
        var shared := defaultParsers[parameter.typeId];
        if shared != null {
          parser := new ParameterParser(shared.kind, shared.displayLabel, shared.defaultValue);
        }
      }
      if parser == null && parameter.isEnum {
        parser := new ParameterParser(EnumKind(parameter.typeId), Some(""), "");
      }
      r := Ok(parser);
    }

    /** The tail of `getParameterParser`: give an unset label the parameter name, then deduplicate. */
    method BackFillAndCache(parser: ParameterParser, name: Option<string>) returns (r: ParameterParser)
      requires Valid()
      modifies this`cachedParsers, parser`displayLabel
      ensures Valid()
      ensures parser.displayLabel == BackFilledLabel(old(parser.displayLabel), name)
      ensures HandsOut(Ok(r), parser.Config())
      ensures parser in old(cachedParsers) ==> cachedParsers == old(cachedParsers)
      ensures cachedParsers == old(cachedParsers) || (r == parser && cachedParsers == old(cachedParsers) + [parser])
      ensures parser !in old(cachedParsers) ==> (old(NoDuplicates(cachedParsers)) ==> NoDuplicates(cachedParsers))
    {
      if IsUnset(parser.displayLabel) && name.Some? {
        parser.SetLabel(name.value);
      }
      ghost var before := cachedParsers;
      r := CacheParser(parser);
      match FirstEquivalent(before, parser.Config()) {
        case Some(k) =>
        case None => FirstEquivalentAppended(before, parser, parser.Config());
      }
    }
  }

  lemma FirstEquivalentAppended(cache: seq<ParameterParser>, p: ParameterParser, config: ParserConfig)
    requires FirstEquivalent(cache, config) == None && p.Config() == config
    ensures FirstEquivalent(cache + [p], config) == Some(|cache|)
  {
    var extended := cache + [p];
    assert extended[|cache|] == p;
    assert forall j :: 0 <= j < |cache| ==> extended[j] == cache[j];
  }
}
