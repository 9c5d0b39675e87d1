/**
 * Two parameters of the same type, neither annotated, both resolved through
 * one default parser. `getParameterParser` writes the first parameter's name
 * into the shared default instance, so the second parameter is handed the
 * same instance carrying the first one's name; back-filling a copy instead
 * gives each parameter its own name.
 */
module LabelSharing {
  import opened Wrappers
  import opened ParameterParsers
  import opened ParserManagers

  /** A JVM in which no parser class has a usable constructor. */
  function NoConstructors(parserClass: ParserClassId, args: seq<Arg>): Option<ParserConfig> {
    None
  }

  function Unannotated(typeId: TypeId, name: string): Parameter {
    Parameter([], typeId, false, Some(name))
  }

  /** As written: the second parameter, named "verbose", is labelled "enabled". */
  method SharedDefaultScenario() returns (first: ParameterParser, second: ParameterParser)
    ensures first == second
    ensures second.displayLabel == Some("enabled")
  {
    var manager := new ParserManager(NoConstructors);
    var boolDefault := new ParameterParser(BoolKind, Some(""), "");
    manager.SetDefaultParserForType("boolean", boolDefault);
    assert manager.cachedParsers == [boolDefault];
    var r1 := manager.GetParameterParser(Unannotated("boolean", "enabled"));
    assert manager.cachedParsers == [boolDefault];
    var r2 := manager.GetParameterParser(Unannotated("boolean", "verbose"));
    first, second := r1.value, r2.value;
  }

  /** With the copying resolution, each parameter keeps its own name. */
  method CopiedDefaultScenario() returns (first: ParameterParser, second: ParameterParser)
    ensures first.displayLabel == Some("enabled")
    ensures second.displayLabel == Some("verbose")
  {
    var manager := new ParserManager(NoConstructors);
    var boolDefault := new ParameterParser(BoolKind, Some(""), "");
    manager.SetDefaultParserForType("boolean", boolDefault);
    var r1 := manager.GetParameterParserWithCopiedDefault(Unannotated("boolean", "enabled"));
    var r2 := manager.GetParameterParserWithCopiedDefault(Unannotated("boolean", "verbose"));
    first, second := r1.value, r2.value;
  }

  /** The constructor `BoolParser(String label, String defaultValue)`, reached reflectively. */
  function BoolConstructor(parserClass: ParserClassId, args: seq<Arg>): Option<ParserConfig> {
    if parserClass == "BoolParser" && |args| == 2 && args[0].StringArg? && args[1].StringArg? then
      Some(ParserConfig(BoolKind, Some(args[0].s), args[1].s))
    else
      None
  }

  /**
   * A manager whose default boolean parser is unlabelled and whose cache also
   * holds the parser built for a `@BoolParam(label = "enabled")` parameter.
   */
  method AnnotatedAndDefaultCached() returns (manager: ParserManager, boolDefault: ParameterParser)
    ensures manager.Valid()
    ensures "boolean" in manager.defaultParsers && manager.defaultParsers["boolean"] == boolDefault
    ensures |manager.cachedParsers| == 2 && manager.cachedParsers[0] == boolDefault
    ensures fresh(manager) && fresh(boolDefault) && fresh(manager.cachedParsers[1])
    ensures boolDefault.Config() == ParserConfig(BoolKind, Some(""), "")
    ensures manager.cachedParsers[1].Config() == ParserConfig(BoolKind, Some("enabled"), "")
  {
    manager := new ParserManager(BoolConstructor);
    manager.RegisterParser("BoolParam", Some("BoolParser"));
    boolDefault := new ParameterParser(BoolKind, Some(""), "");
    manager.SetDefaultParserForType("boolean", boolDefault);
    var annotated := Parameter([LabelledBoolParam("enabled")], "boolean", false, Some("enabled"));
    LabelledBoolParamCall(annotated, "enabled");
    assert FirstRegistered(annotated.annotations, manager.registeredParsers) == Some(0);
    var r := manager.GetParameterParser(annotated);
  }

  /**
   * As written: after that, an unannotated boolean parameter named "enabled"
   * relabels the shared default, and the cache holds two equal parsers.
   */
  method DuplicateCacheScenario() returns (manager: ParserManager)
    ensures !NoDuplicates(manager.cachedParsers)
  {
    var boolDefault;
    manager, boolDefault := AnnotatedAndDefaultCached();
    var r := manager.GetParameterParser(Unannotated("boolean", "enabled"));
    assert manager.cachedParsers[0].Config() == manager.cachedParsers[1].Config();
  }

  /** `@BoolParam(label = l)`: Property 0 is the label, Property 1 the (empty) default value. */
  function LabelledBoolParam(l: string): Annotation {
    Annotation("BoolParam", [Accessor(Some(0), StringArg(l)), Accessor(Some(1), StringArg(""))])
  }

  lemma LabelledBoolParamCall(parameter: Parameter, l: string)
    ensures ConstructorCall(parameter, LabelledBoolParam(l)) == Ok([StringArg(l), StringArg("")])
  {
    var accessors := LabelledBoolParam(l).accessors;
    assert accessors[..1] == [accessors[0]] && accessors[..1][..0] == [];
    assert Slots(accessors[..1]) == 1;
    assert LastValueAt(accessors, 0) == Some(StringArg(l));
    assert LastValueAt(accessors, 1) == Some(StringArg(""));
    var args := seq(Slots(accessors), k => LastValueAt(accessors, k));
    assert args == [Some(StringArg(l)), Some(StringArg(""))];
    assert ConstructorArguments(accessors) == Ok(args);
    assert args[0].Some? && args[1].Some?;
    var values := AllPresent(args).value;
    assert values[0] == StringArg(l) && values[1] == StringArg("");
    assert values == [StringArg(l), StringArg("")];
  }
}
