/**
 * The parser objects handed out by the parser manager. Only the state the
 * manager relies on is modelled: the concrete kind, the mutable label and
 * the default value, plus the descriptor record shared by the concrete kinds.
 */
module ParameterParsers {
  import opened Wrappers

  /** A Java class used as a parameter type (a `Class<?>`), by name. */
  type TypeId = string

  /** The concrete class of a parser instance. */
  datatype ParserKind =
    | BoolKind
    | MsgKind
    | EnumKind(enumType: TypeId)
    | OtherKind(className: string)

  /** Everything that takes part in parser equality: kind, label and default value. */
  datatype ParserConfig = ParserConfig(kind: ParserKind, displayLabel: Option<string>, defaultValue: string)

  /** Help-text metadata of a parser: type name, one help sentence, extra lines. */
  datatype ParserDescription = ParserDescription(typeName: string, description: string, extras: seq<string>)

  /** A label counts as unset when it is `null` or empty. */
  predicate IsUnset(text: Option<string>) {
    text.None? || text.value == ""
  }

  /** How a default value is displayed in a descriptor: never blank. */
  function DefaultValueShown(defaultValue: string): (shown: string)
    ensures shown != ""
    ensures defaultValue != "" ==> shown == defaultValue
    ensures defaultValue == "" ==> shown == "none"
  {
    if defaultValue == "" then "none" else defaultValue
  }

  /** A parser instance; `displayLabel` (the source's `label`) is the only field that changes after construction. */
  class ParameterParser {
    const kind: ParserKind
    var displayLabel: Option<string>
    const defaultValue: string

    constructor (kind: ParserKind, displayLabel: Option<string>, defaultValue: string)
      ensures Config() == ParserConfig(kind, displayLabel, defaultValue)
    {
      this.kind := kind;
      this.displayLabel := displayLabel;
      this.defaultValue := defaultValue;
    }

    function Config(): ParserConfig
      reads this
    {
      ParserConfig(kind, displayLabel, defaultValue)
    }

    method SetLabel(name: string)
      modifies this`displayLabel
      ensures displayLabel == Some(name)
    {
      displayLabel := Some(name);
    }
  }

  /** Parser equality: same kind, same label, same default value. */
  predicate Equivalent(p: ParameterParser, q: ParameterParser)
    reads p, q
  {
    p.Config() == q.Config()
  }
}
