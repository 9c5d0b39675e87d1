/**
 * The single-token boolean parser: `Boolean.parseBoolean` of the token at
 * the offset, which accepts "true" in any letter case and yields false for
 * every other token without raising an error.
 */
module BoolParser {
  import opened ParameterParsers

  /** ASCII lower-casing of one character. */
  function AsciiLower(c: char): char {
    if 'A' <= c <= 'Z' then (c as int + 32) as char else c
  }

  /** `String.equalsIgnoreCase`, restricted to ASCII case folding. */
  predicate EqualsIgnoreCase(a: string, b: string) {
    |a| == |b| && forall i :: 0 <= i < |a| ==> AsciiLower(a[i]) == AsciiLower(b[i])
  }

  function Lowered(s: string): (r: string)
    ensures |r| == |s|
    ensures forall i :: 0 <= i < |s| ==> r[i] == AsciiLower(s[i])
  {
    if s == [] then [] else [AsciiLower(s[0])] + Lowered(s[1..])
  }

  /** The descriptor built by the constructor `BoolParser(label, defaultValue)`. */
  function Descriptor(defaultValue: string): (d: ParserDescription)
    ensures d.typeName == "bool"
    ensures |d.extras| == 2 && d.extras[0] == "Default value: " && d.extras[1] != ""
    ensures defaultValue != "" ==> d.extras[1] == defaultValue
    ensures defaultValue == "" ==> d.extras[1] == "none"
  {
    ParserDescription(
      "bool", "This parameter can only contain a true or false value",
      ["Default value: ", DefaultValueShown(defaultValue)])
  }

  /** `parse(offset, args)`: reads only `args[offset]` and no parser field. */
  function Parse(offset: int, args: seq<string>): (b: bool)
    requires 0 <= offset < |args|
    ensures b <==> EqualsIgnoreCase(args[offset], "true")
  {
    Lowered(args[offset]) == "true"
  }

  /** The tokens that parse to true are exactly the sixteen letter casings of "true". */
  lemma ParseTrueExactlyForCasingsOfTrue(offset: int, args: seq<string>)
    requires 0 <= offset < |args|
    ensures Parse(offset, args) <==>
      var t := args[offset];
      |t| == 4 && (t[0] == 't' || t[0] == 'T') && (t[1] == 'r' || t[1] == 'R')
               && (t[2] == 'u' || t[2] == 'U') && (t[3] == 'e' || t[3] == 'E')
  {
  }
}
