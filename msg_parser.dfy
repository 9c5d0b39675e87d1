/**
 * The greedy message parser: joins every token from the offset to the end
 * with single spaces.
 */
module MsgParser {
  import opened ParameterParsers

  /** The tokens joined left to right, one space between neighbours. */
  function Joined(tokens: seq<string>): string
    requires |tokens| >= 1
  {
    if |tokens| == 1 then tokens[0]
    else Joined(tokens[..|tokens| - 1]) + " " + tokens[|tokens| - 1]
  }

  function TotalLength(tokens: seq<string>): nat {
    if tokens == [] then 0 else |tokens[0]| + TotalLength(tokens[1..])
  }

  /** The descriptor built by the constructor `MsgParser(label, defaultValue)`. */
  function Descriptor(defaultValue: string): (d: ParserDescription)
    ensures d.typeName == "message"
    ensures |d.extras| == 2 && d.extras[0] == "Default value: " && d.extras[1] != ""
    ensures defaultValue != "" ==> d.extras[1] == defaultValue
    ensures defaultValue == "" ==> d.extras[1] == "none"
  {
    ParserDescription(
      "message", "This parameter can only contain a string value with spaces",
      ["Default value: ", DefaultValueShown(defaultValue)])
  }

  /** `parse(offset, args)`: a string builder seeded with `args[offset]`, then " " and each later token. */
  method Parse(offset: int, args: seq<string>) returns (s: string)
    requires 0 <= offset < |args|
    ensures s == Joined(args[offset..])
    ensures offset == |args| - 1 ==> s == args[offset]
  {
    s := args[offset];
    var i := offset + 1;
    while i < |args|
      invariant offset + 1 <= i <= |args|
      invariant s == Joined(args[offset..i])
    {
      assert args[offset..i + 1][..i - offset] == args[offset..i];
      s := s + " " + args[i];
      i := i + 1;
    }
    assert args[offset..i] == args[offset..];
  }

  /** Joining unfolds from the front: first token, a space, then the rest joined. */
  lemma {:induction false} JoinedFront(tokens: seq<string>)
    requires |tokens| >= 2
    ensures Joined(tokens) == tokens[0] + " " + Joined(tokens[1..])
  {
    var n := |tokens|;
    if n == 2 {
      assert tokens[..1] == [tokens[0]];
      assert tokens[1..] == [tokens[1]];
    } else {
      JoinedFront(tokens[..n - 1]);
      assert tokens[..n - 1][1..] == tokens[1..][..n - 2];
      assert tokens[..n - 1][..1] == tokens[..1];
      calc {
        Joined(tokens);
        Joined(tokens[..n - 1]) + " " + tokens[n - 1];
        tokens[0] + " " + Joined(tokens[1..][..n - 2]) + " " + tokens[1..][n - 2];
        tokens[0] + " " + Joined(tokens[1..]);
      }
    }
  }

  /** parse(offset) is args[offset], a space, then parse(offset + 1). */
  lemma ParseUnfolds(offset: int, args: seq<string>)
    requires 0 <= offset < |args| - 1
    ensures Joined(args[offset..]) == args[offset] + " " + Joined(args[offset + 1..])
  {
    JoinedFront(args[offset..]);
    assert args[offset..][1..] == args[offset + 1..];
  }

  /** The joined length: all token lengths plus one space between each pair. */
  lemma {:induction false} JoinedLength(tokens: seq<string>)
    requires |tokens| >= 1
    ensures |Joined(tokens)| == TotalLength(tokens) + |tokens| - 1
  {
    if |tokens| > 1 {
      JoinedFront(tokens);
      JoinedLength(tokens[1..]);
    }
  }
}
