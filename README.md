# Command parameter parsers

This project models the parameter-parser resolution engine of a command
framework for Minecraft plugins. It also models the two concrete token
parsers that the engine hands out.

A command method declares parameters. For each parameter, the `ParserManager`
picks the parser that turns command-line tokens into the parameter's value.
It looks in a fixed priority order:

1. the first annotation on the parameter, in declaration order, whose parser
   class is registered;
2. the default parser registered for the parameter's type;
3. a fresh enum parser, when the type is an enum.

If the chosen parser's label is null or empty and the parameter's name is
present, the name is written into the parser. The parser is then passed
through a cache that returns the first cached parser equal to it, or appends
it. The cache is meant to hold one instance per equal parser, but as written
it can end up holding two equal ones (see Findings).

Modules:

- `ParserManagers`: the class `ParserManager`, with the same three fields as
  the source.
  - `registeredParsers` maps an annotation to a parser class; a `null` class
    is `None`.
  - `defaultParsers` maps a type to a default parser instance.
  - `cachedParsers` is the cache list.

  The module also holds the pure functions its methods are proved against:
  - `FirstRegistered` (first-match over the annotations);
  - `ConstructorArguments`, `Slots` and `LastValueAt` (the positional argument
    list built from `@Property`-marked annotation accessors);
  - `ConstructorCall` (the arguments the constructor receives, or the
    exception thrown before the call);
  - `FirstEquivalent` (cache lookup);
  - `SourceFor` (which source resolves a parameter).
- `ParameterParsers`: the parser object. Its kind and default value are
  fixed, and its label is mutable. Two parsers are equal when their kind,
  label and default value are equal.
- `BoolParser`: `Boolean.parseBoolean` of the token at the offset, and the
  `"bool"` descriptor.
- `MsgParser`: the greedy join of every token from the offset onward, and the
  `"message"` descriptor.
- `LabelSharing`: concrete managers that exhibit the finding below.
- `Wrappers`: `Option` and `Result`.

Java's exceptions are modelled as `Err` values of `Result<_, Failure>`:

- `IllegalState` for a missing or throwing constructor;
- `IllegalArgument` for `getParserClass` on an unregistered annotation;
- `NullPointer` when a null argument gap reaches `getClass()`;
- `IndexOutOfBounds` when a negative `@Property` index reaches
  `ArrayList.set`.

## Model

| member | source | states |
|---|---|---|
| ParserManagers.ParserManager.constructor | src/main/java/ml/empee/commandsManager/parsers/ParserManager.java:15-17 | a new manager starts with both registries and the cache empty |
| ParserManagers.ParserManager.RegisterParser | src/main/java/ml/empee/commandsManager/parsers/ParserManager.java:19-21 | the registry entry for the annotation becomes the given class, overwriting an earlier one; `isParserRegistered` of the annotation is then true exactly when the class is non-null; no other annotation's registration changes |
| ParserManagers.ParserManager.IsParserRegistered | src/main/java/ml/empee/commandsManager/parsers/ParserManager.java:27-29 | an annotation is registered exactly when the registry holds a non-null class for it |
| ParserManagers.ParserManager.GetParserClass | src/main/java/ml/empee/commandsManager/parsers/ParserManager.java:102-112 | returns the registered class exactly when `isParserRegistered` holds, otherwise IllegalArgumentException naming the annotation |
| ParserManagers.ParserManager.CacheParser | src/main/java/ml/empee/commandsManager/parsers/ParserManager.java:114-129 | null gives null and leaves the cache alone; otherwise it returns the first cached parser equal to the argument with the cache unchanged, or appends the argument and returns it; a cache without two equal parsers keeps that property |
| ParserManagers.FirstEquivalent | src/main/java/ml/empee/commandsManager/parsers/ParserManager.java:119-125 | the index found holds a parser equal to the configuration and no earlier one is equal; None means no cached parser is equal |
| ParserManagers.FirstEquivalentAppended | src/main/java/ml/empee/commandsManager/parsers/ParserManager.java:127-128 | a parser appended to a cache holding no equal parser is the first equal one in the new cache |
| ParserManagers.ParserManager.SetDefaultParserForType | src/main/java/ml/empee/commandsManager/parsers/ParserManager.java:23-25 | the default for the type becomes the cached instance equal to the parser (the earlier cached one if there is one, else the parser itself, appended); other types' defaults are unchanged; every default parser stays in the cache |
| ParserManagers.ParserManager.ExtractParserConstructorArguments | src/main/java/ml/empee/commandsManager/parsers/ParserManager.java:58-76 | the padding and `set` loop produces exactly `ConstructorArguments`: Slots entries, each the value of the last accessor marked with that index or null; a negative index is IndexOutOfBoundsException |
| ParserManagers.ArgumentsAfterUnmarked | src/main/java/ml/empee/commandsManager/parsers/ParserManager.java:61-62 | an accessor without the Property marker leaves the argument list unchanged |
| ParserManagers.ArgumentsAfterMarked | src/main/java/ml/empee/commandsManager/parsers/ParserManager.java:64-71 | padding to the marked index and storing the accessor's value there yields the argument list of the accessors met so far |
| ParserManagers.SlotsIsOnePastLargestIndex | src/main/java/ml/empee/commandsManager/parsers/ParserManager.java:64-69 | the list length is one more than the largest marked index (0 when none is marked): every non-negative index lies below it and the largest one equals length - 1 |
| ParserManagers.LastValueAtBeyondSlots | src/main/java/ml/empee/commandsManager/parsers/ParserManager.java:67-69 | positions added by padding hold null until an accessor is stored there |
| ParserManagers.LastValueAtUnmarked | src/main/java/ml/empee/commandsManager/parsers/ParserManager.java:66-71 | a position no accessor is marked with holds null |
| ParserManagers.LastMarkedWins | src/main/java/ml/empee/commandsManager/parsers/ParserManager.java:71 | when several accessors share an index, the one met last provides the value |
| ParserManagers.LastValueAtDistinct | src/main/java/ml/empee/commandsManager/parsers/ParserManager.java:60-73 | with distinct indices, position k holds v exactly when the accessor marked k returns v |
| ParserManagers.MarkedAtMostOnce | src/main/java/ml/empee/commandsManager/parsers/ParserManager.java:60-73 | with distinct indices, no marked accessor appears twice |
| ParserManagers.DistinctIndicesPermuted | src/main/java/ml/empee/commandsManager/parsers/ParserManager.java:60-73 | distinct indices in one order of the accessors means distinct indices in every order |
| ParserManagers.ArgumentsIgnoreAccessorOrder | src/main/java/ml/empee/commandsManager/parsers/ParserManager.java:60-73 | with distinct indices, any two orders of the same accessors give the same argument list, or both fail |
| ParserManagers.ValueAtIgnoresOrder | src/main/java/ml/empee/commandsManager/parsers/ParserManager.java:60-73 | with distinct indices, the value at a position depends only on which accessors there are, not their order |
| ParserManagers.AllPresent | src/main/java/ml/empee/commandsManager/parsers/ParserManager.java:90-93 | the argument values are available exactly when no argument is null, and then they are the arguments in order |
| ParserManagers.ConstructorCallArguments | src/main/java/ml/empee/commandsManager/parsers/ParserManager.java:84-95 | when the constructor is reached, it receives the value at every position below Slots in order, plus one more argument exactly for `EnumParam`, which is the parameter's type |
| ParserManagers.ConstructorCallFailures | src/main/java/ml/empee/commandsManager/parsers/ParserManager.java:64-93 | the constructor is not reached with IndexOutOfBoundsException exactly when some index is negative, and with NullPointerException exactly when all are non-negative and a position below Slots has no accessor; nothing else stops it |
| ParserManagers.ParserManager.BuildParameterParser | src/main/java/ml/empee/commandsManager/parsers/ParserManager.java:78-100 | an unregistered annotation gives null; otherwise the exception from argument building, IllegalStateException when no constructor matches or it throws, or a fresh parser with the constructed configuration |
| ParserManagers.FirstRegistered | src/main/java/ml/empee/commandsManager/parsers/ParserManager.java:34-39 | the annotation found is registered and no earlier one is; None means none of them is registered |
| ParserManagers.ParserManager.FirstAnnotationParser | src/main/java/ml/empee/commandsManager/parsers/ParserManager.java:34-39 | the loop's outcome is decided by the first registered annotation alone (its parser or its exception); null when none is registered |
| ParserManagers.ParserManager.ResolveToFreshParser | src/main/java/ml/empee/commandsManager/parsers/ParserManager.java:33-48 | corrected resolution step: the same priority order as the source, but every parser returned is fresh, and a default parser is returned as a copy with the same configuration |
| ParserManagers.BackFilledLabel | src/main/java/ml/empee/commandsManager/parsers/ParserManager.java:50-52 | the label becomes the parameter name exactly when it is null or empty and the name is present; otherwise it is unchanged |
| ParserManagers.ParserManager.BackFillAndCache | src/main/java/ml/empee/commandsManager/parsers/ParserManager.java:50-54 | the parser's label is back-filled in place, and the result is the first cached parser equal to it; a parser already in the cache leaves the cache list unchanged |
| ParserManagers.ParserManager.GetParameterParser | src/main/java/ml/empee/commandsManager/parsers/ParserManager.java:32-55 | as written: the first registered annotation wins, then the type's default, then an enum parser, else null; a non-null result is the first cached parser equal to the back-filled parser; the cache grows by at most that one fresh parser; a default parser keeps its cache slot but has its own label back-filled; no other cached parser's label changes |
| ParserManagers.ParserManager.GetParameterParserWithCopiedDefault | src/main/java/ml/empee/commandsManager/parsers/ParserManager.java:32-55 | corrected: the same priority order and results, with the label back-filled on a copy of the default parser, so no existing parser changes and a cache without two equal parsers keeps that property |
| ParameterParsers.ParameterParser.constructor | src/main/java/tk/empee/commandManager/parsers/types/BoolParser.java:7-9 | a parser holds the kind, label and default value it was built with |
| ParameterParsers.ParameterParser.SetLabel | src/main/java/ml/empee/commandsManager/parsers/ParserManager.java:51 | the label becomes the given name; nothing else about the parser changes |
| ParameterParsers.DefaultValueShown | src/main/java/tk/empee/commandManager/parsers/types/BoolParser.java:11 | the shown default is "none" for an empty default and the default itself otherwise, so it is never blank |
| BoolParser.Descriptor | src/main/java/tk/empee/commandManager/parsers/types/BoolParser.java:10-12 | type name "bool"; extras are "Default value: " and the default, or "none" when it is empty |
| BoolParser.Lowered | src/main/java/tk/empee/commandManager/parsers/types/BoolParser.java:17 | case folding keeps the length and lowers each letter |
| BoolParser.Parse | src/main/java/tk/empee/commandManager/parsers/types/BoolParser.java:16-18 | true exactly when the token at the offset equals "true" ignoring case; every other token is false with no error; only that token is read, and no parser field |
| BoolParser.ParseTrueExactlyForCasingsOfTrue | src/main/java/tk/empee/commandManager/parsers/types/BoolParser.java:17 | the tokens read as true are exactly the four-letter casings of "true" |
| MsgParser.Descriptor | src/main/java/tk/empee/commandManager/parsers/types/greedy/MsgParser.java:11-13 | type name "message"; extras are "Default value: " and the default, or "none" when it is empty |
| MsgParser.Parse | src/main/java/tk/empee/commandManager/parsers/types/greedy/MsgParser.java:17-24 | the builder loop yields every token from the offset onward, joined by single spaces; a last-token offset yields that token exactly; no parser field is read |
| MsgParser.JoinedFront | src/main/java/tk/empee/commandManager/parsers/types/greedy/MsgParser.java:18-21 | a join of two or more tokens is the first token, a space, and the join of the rest |
| MsgParser.ParseUnfolds | src/main/java/tk/empee/commandManager/parsers/types/greedy/MsgParser.java:18-21 | for an offset before the last token, parse(offset) is args[offset], a space, then parse(offset + 1) |
| MsgParser.JoinedLength | src/main/java/tk/empee/commandManager/parsers/types/greedy/MsgParser.java:18-21 | the result length is the sum of the token lengths plus one space between each neighbouring pair |
| LabelSharing.SharedDefaultScenario | src/main/java/ml/empee/commandsManager/parsers/ParserManager.java:42-54 | two unannotated boolean parameters named "enabled" and "verbose" get the same instance, labelled "enabled" |
| LabelSharing.CopiedDefaultScenario | src/main/java/ml/empee/commandsManager/parsers/ParserManager.java:42-54 | with the copying resolution the same two parameters get the labels "enabled" and "verbose" |
| LabelSharing.LabelledBoolParamCall | src/main/java/ml/empee/commandsManager/parsers/ParserManager.java:58-76 | `@BoolParam` with label l at Property 0 and an empty default at Property 1 calls the constructor with (l, "") |
| LabelSharing.AnnotatedAndDefaultCached | src/main/java/ml/empee/commandsManager/parsers/ParserManager.java:23-55 | after a default boolean parser and an annotated "enabled" parameter are resolved, the cache holds the unlabelled default and a parser labelled "enabled" |
| LabelSharing.DuplicateCacheScenario | src/main/java/ml/empee/commandsManager/parsers/ParserManager.java:50-54 | an unannotated boolean parameter named "enabled" then relabels the cached default, and the cache holds two equal parsers |

## Findings

| source | as written | input that shows it | evidently intended | confidence | as-written member | corrected member |
|---|---|---|---|---|---|---|
| src/main/java/ml/empee/commandsManager/parsers/ParserManager.java:42-52 | the label is back-filled on the default parser instance itself, which is the instance held in the cache and returned for every parameter of that type | a default `BoolParser` with empty label for `boolean`; resolve unannotated parameters `enabled` and then `verbose`: both get the same parser, labelled "enabled". Also, once a parser labelled "enabled" is cached, the back-fill makes the default equal to it, so the cache holds two equal parsers | each parameter gets a parser labelled with its own name, and cached parsers are never changed, so the cache keeps one instance per equal parser | not executed | ParserManagers.ParserManager.GetParameterParser, LabelSharing.SharedDefaultScenario, LabelSharing.DuplicateCacheScenario | ParserManagers.ParserManager.GetParameterParserWithCopiedDefault, LabelSharing.CopiedDefaultScenario |

## Left out

- Reflection is abstract.
  - An annotation is its identifier plus its accessors, each with an optional `@Property` index and the value it returns.
  - The order of `getMethods()` is the order of that list.
  - `getConstructor(types).newInstance(args)` is the manager's `instantiate` function. None means no matching constructor, or a constructor that throws.
  - A throwing accessor (`method.invoke`) is not modelled.
- The registries are keyed by an abstract identifier, not `hashCode()`. Hash collisions between distinct classes are not modelled.
- `ParameterParser`, `EnumParser`, `EnumParam` and `ParserDescription` are not part of this model.
  - Parser equality is taken to be equality of kind, label and default value.
  - An enum parser is represented by its kind and configuration only.
- BoolParser.Parse: compares with ASCII case folding only. The non-ASCII case folding of Java's `equalsIgnoreCase` is not modelled.
- The descriptor's help sentence is carried as text; descriptors of parser kinds other than bool and message are not modelled.
- Generics, unchecked casts and `@SneakyThrows` have no behaviour of their own and are not modelled.
- The Mockito test scaffolding and the build file are not part of this model.
- GetParameterParser: the annotation loop and the back-fill-and-cache tail are separate methods (FirstAnnotationParser, BackFillAndCache). The statements and their order are those of the source.
