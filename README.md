# ZendAmf TypeLoader, modelled in Dafny

`ZendAmf\Parser\TypeLoader` sits between the AMF encoder/decoder and the PHP type system. It holds two pieces of process-wide static state, and this project models both.

- **Class-name registry.** An ordered PHP array maps ActionScript (wire) class names to PHP class names. It starts as a copy of six FlexMessaging defaults. `setMapping` writes one entry and `resetMap` restores the defaults. `getMappedClassName` looks a name up in both directions: it searches the values first and then the keys, via `array_flip`. `loadType` falls back to turning the dotted wire name into a namespaced PHP name, and to `stdClass` when the host knows no such class.
- **Resource conversion.** An optional plugin loader resolves a normalised resource type tag to a handler class. `handleResource` loops while the value is a resource: it looks up a handler, constructs it, checks that it has `parse()`, and replaces the value with what `parse()` returns. Every failure is rewrapped into one of the module's two exception classes.

Modules:

- `Wrappers` (`wrappers.dfy`): `Option`.
- `ClassMaps` (`class_map.dfy`): the ordered map as a sequence of pairs, plus the pure functions over it.
  - PHP's `array_search`, `$m[$k] = $v` and `array_flip` become `ArraySearch`, `Put` and `ArrayFlip`.
  - Also here: `GetMappedClassName`, `LoadType`, the default map, and the lemmas about lookup precedence and round trips.
- `ResourceTags` (`resource_tag.dfy`): the tag normalisation of `getResourceParser`, built from the three PHP steps.
  - The steps are `ReplaceNonWord` (`preg_replace`), `UcWords` and `RemoveSpaces` (`str_replace`).
  - `Capitalized` is an independent one-pass reference definition, and a lemma proves the pipeline equal to it.
- `Resources` (`resources.dfy`): values, exceptions, handlers, the loader, the catch clauses (`Rewrap`) and one pass of the loop body (`StepOn`).
  - `Convert` and `HandleResource` are the specification of the loop, recording the chain of resources, the loader lookups and the handler constructions.
- `TypeLoaders` (`type_loader.dfy`): class `TypeLoader`, whose fields `classMap` and `resourceLoader` are the static fields.
  - Its methods change them as the source does.
  - `HandleResource` is the imperative `while` loop, proved equal to the specification. Its body is the method `RunLoopBody`.

## Behaviour worth noting

- A missing handler (line 177) or a missing `parse()` (line 181) throws the module's own `RuntimeException`.
  - The first catch clause (186-187) rethrows it as an `InvalidArgumentException` with the same message and code.
  - So the caller sees `InvalidArgumentException` in both cases.
  - This assumes `Exception\RuntimeException` implements `Exception\ExceptionInterface`. The exception classes are not part of this model.
- `resetMap` assigns a PHP array by value, and nothing in the final class ever writes `$_defaultClassMap`.
  - So after a reset the map is exactly the six default pairs.
  - The model holds the defaults as the constant `DefaultClassMap`.
- `ClassMaps.PutRoundTrip` gives conditions under which `setMapping(a, b)` makes `a` and `b` resolve to each other.
  - Both names must be truthy. This is required: line 86 treats a falsy answer as a miss.
  - No other key holds `a` or `b` as its value. This is enough, not necessary: `ClassMaps.FalsyOtherKeyStillRoundTrips` shows a falsy key holding `a` without harm.
  - `ClassMaps.SharedValueResolvesToFirstKey` shows an earlier truthy key holding `b`, which takes `b`'s answer.
- When the value search at line 84 finds only a falsy key (`""` or `"0"`), line 86 treats it as a miss and the key search at line 90 answers instead (`ClassMaps.FalsyKeyFallsThrough`).
- An entry mapping a truthy name to itself is not a miss when no earlier entry holds that name as a value. The value search returns its key, which is the name itself.
- `getResourceParser` replaces each non-word character with its own space. Removing the spaces afterwards leaves only the word characters (`ResourceTags.NormalizeTagIsCapitalized`).

## Model

| member | source | states |
|---|---|---|
| `ClassMaps.ArraySearch` | library/ZendAmf/Parser/TypeLoader.php:84 | `array_search` finds nothing exactly when no entry holds the needle as value; otherwise it returns the key of the first entry that does |
| `ClassMaps.Put` | library/ZendAmf/Parser/TypeLoader.php:112 | every entry after `$m[$k] = $v` is the new pair or an old entry; unique keys stay unique |
| `ClassMaps.PutLookup` | library/ZendAmf/Parser/TypeLoader.php:112 | after `setMapping(a, b)` key `a` has value `b`, and every other key keeps its value |
| `ClassMaps.PutPositions` | library/ZendAmf/Parser/TypeLoader.php:112 | an existing key keeps its position and every other entry is unchanged; a new key is appended at the end |
| `ClassMaps.ArrayFlip` | library/ZendAmf/Parser/TypeLoader.php:90 | `array_flip` yields unique keys, and each of its entries is a swapped entry of the input |
| `ClassMaps.FlipLookup` | library/ZendAmf/Parser/TypeLoader.php:90 | in `array_flip($m)` a value maps to the LAST key that had that value |
| `ClassMaps.FlipSearchMissing` | library/ZendAmf/Parser/TypeLoader.php:90 | searching the flipped map for a name that is no key finds nothing |
| `ClassMaps.FlipSearchLast` | library/ZendAmf/Parser/TypeLoader.php:90 | searching the flipped map for the key of entry i finds its value when no later entry shares that value |
| `ClassMaps.FlipSearchShadowed` | library/ZendAmf/Parser/TypeLoader.php:90 | searching the flipped map for the key of entry i finds nothing when a later entry shares its value |
| `ClassMaps.GetMappedClassName` | library/ZendAmf/Parser/TypeLoader.php:82-97 | a hit is always truthy and is the other side of an entry that holds the name as key or as value |
| `ClassMaps.ValueSearchWins` | library/ZendAmf/Parser/TypeLoader.php:84-88 | a name held as a value resolves to the key of its first such entry when that key is truthy, whatever the keys hold |
| `ClassMaps.KeySearch` | library/ZendAmf/Parser/TypeLoader.php:84-96 | a name held as the key of entry i, whose value search misses or finds only a falsy key, resolves to that entry's value if and only if it is truthy and no later entry has it; otherwise it is a miss |
| `ClassMaps.FalsyKeyFallsThrough` | library/ZendAmf/Parser/TypeLoader.php:84-94 | in `[("", "x"), ("x", "y")]` the value search for `"x"` finds the falsy key `""`, so `"x"` resolves through the keys to `"y"` |
| `ClassMaps.Unmapped` | library/ZendAmf/Parser/TypeLoader.php:82-97 | a name that is no key is a miss when its value search misses or finds only a falsy key |
| `ClassMaps.Bidirectional` | library/ZendAmf/Parser/TypeLoader.php:82-97 | in a map whose keys and values are distinct, truthy and disjoint, each key resolves to its value and each value to its key |
| `ClassMaps.PutRoundTrip` | library/ZendAmf/Parser/TypeLoader.php:110-113 | after `setMapping(a, b)` on a map with unique keys, with `a` and `b` truthy and held by no other key's value, `a` resolves to `b` and `b` to `a` |
| `ClassMaps.FalsyOtherKeyStillRoundTrips` | library/ZendAmf/Parser/TypeLoader.php:84-112 | after `setMapping("a", "b")` over `("", "a")` the map is `[("", "a"), ("a", "b")]`, and `"a"` and `"b"` resolve to each other |
| `ClassMaps.SharedValueResolvesToFirstKey` | library/ZendAmf/Parser/TypeLoader.php:84-94 | after `setMapping("c", "b")` over an entry `("a", "b")`, `"b"` resolves to `"a"` while `"c"` resolves to `"b"` |
| `ClassMaps.DefaultIsOneToOne` | library/ZendAmf/Parser/TypeLoader.php:44-51 | the six default keys and values are distinct, truthy, and no key equals a value |
| `ClassMaps.DefaultsBidirectional` | library/ZendAmf/Parser/TypeLoader.php:32-51 | with the default map, each wire name resolves to its PHP class and each PHP class back to its wire name |
| `ClassMaps.DotsToBackslashes` | library/ZendAmf/Parser/TypeLoader.php:68 | `str_replace('.', '\\', s)` keeps the length, leaves no `.`, and changes exactly the dots into backslashes |
| `ClassMaps.LoadType` | library/ZendAmf/Parser/TypeLoader.php:64-74 | never fails: the result is `stdClass` or a known class. On a hit the mapped name is tested as it is; on a miss, the dotted-to-namespaced name. A candidate the host knows is returned |
| `ClassMaps.DefaultWireNameLoads` | library/ZendAmf/Parser/TypeLoader.php:64-74 | a default wire name loads its PHP class when the host knows that class |
| `ClassMaps.DefaultNativeNameYieldsStdClass` | library/ZendAmf/Parser/TypeLoader.php:64-74 | a default PHP class name maps back to its dotted wire name; when the host does not know that name the result is `stdClass` |
| `ResourceTags.ToUpper` | library/ZendAmf/Parser/TypeLoader.php:155 | only `a`-`z` change, each to its ASCII upper-case letter |
| `ResourceTags.ReplaceNonWordAt` | library/ZendAmf/Parser/TypeLoader.php:154 | each character outside `[A-Za-z0-9_]` becomes a space; the others stay in place (`ReplaceNonWord` keeps the length) |
| `ResourceTags.UcWordsFromAt` | library/ZendAmf/Parser/TypeLoader.php:155 | `ucwords` upper-cases exactly the first character and each character after a delimiter; `UcWordsFrom` keeps the length |
| `ResourceTags.RemoveSpaces` | library/ZendAmf/Parser/TypeLoader.php:155 | removing spaces leaves no space and no longer string |
| `ResourceTags.RemoveSpacesKeepsOthers` | library/ZendAmf/Parser/TypeLoader.php:155 | a character occurs after space removal exactly when it occurs in the input and is not a space |
| `ResourceTags.NormalizeTag` | library/ZendAmf/Parser/TypeLoader.php:154-155 | the tag handed to the loader holds no space and is no longer than the resource type; `NormalizeTagIsCapitalized` states it exactly |
| `ResourceTags.CapitalizedKeepsWordChars` | library/ZendAmf/Parser/TypeLoader.php:154-155 | the reference normalisation has one character per word character of the input, and only word characters |
| `ResourceTags.PipelineIsCapitalized` | library/ZendAmf/Parser/TypeLoader.php:154-155 | replace, `ucwords` from a given state, then remove spaces equals the reference from the same state |
| `ResourceTags.NormalizeTagIsCapitalized` | library/ZendAmf/Parser/TypeLoader.php:154-155 | the normalised tag is the reference: only `[A-Za-z0-9_]`, as many characters as the input has of those. A character is upper-cased exactly when it starts the tag or follows a replaced character; `_` keeps its case |
| `ResourceTags.NormalizeStream` | library/ZendAmf/Parser/TypeLoader.php:154-155 | `"stream"` normalises to `"Stream"` |
| `ResourceTags.NormalizeSeparated` | library/ZendAmf/Parser/TypeLoader.php:154-155 | `"foo-bar!!baz"` normalises to `"FooBarBaz"` |
| `ResourceTags.NormalizeUnderscoreKept` | library/ZendAmf/Parser/TypeLoader.php:154-155 | `"stream_context"` normalises to `"Stream_context"` |
| `ResourceTags.NormalizeSpaced` | library/ZendAmf/Parser/TypeLoader.php:154-155 | `"gd image"` normalises to `"GdImage"` |
| `Resources.LoaderNotSet` | library/ZendAmf/Parser/TypeLoader.php:170-172 | the no-loader error is an `InvalidArgumentException` with the fixed message, code 0 and no previous exception |
| `Resources.Rewrap` | library/ZendAmf/Parser/TypeLoader.php:186-189 | a module exception becomes `InvalidArgumentException` with its message and code. Any other becomes `RuntimeException` naming the resource type, with code 0. The original is kept as previous |
| `Resources.GetResourceParser` | library/ZendAmf/Parser/TypeLoader.php:151-159 | with no loader there is no handler; otherwise the loader is asked with the normalised tag |
| `Resources.Missing` | library/ZendAmf/Parser/TypeLoader.php:176 | `!$resclass`: the loader found no handler, or one whose class name is `""` or `"0"` |
| `Resources.NoHandler` | library/ZendAmf/Parser/TypeLoader.php:177 | the module's own `RuntimeException`, naming the resource type, with code 0 and no previous exception |
| `Resources.NoParse` | library/ZendAmf/Parser/TypeLoader.php:181 | the module's own `RuntimeException`, naming the handler class, with code 0 and no previous exception |
| `Resources.StepOn` | library/ZendAmf/Parser/TypeLoader.php:175-183 | a failing pass of the loop body has constructed at most one handler |
| `Resources.ConvertFails` | library/ZendAmf/Parser/TypeLoader.php:175-189 | a failing pass of the loop body ends the run: its resource and tag are recorded and the exception leaves through the catch clauses |
| `Resources.ConvertSteps` | library/ZendAmf/Parser/TypeLoader.php:174-183 | a successful pass records its resource, tag and handler and continues from the value `parse()` returned |
| `Resources.ConvertStops` | library/ZendAmf/Parser/TypeLoader.php:174-185 | the loop ends on a non-resource, which is returned as it is, with nothing more recorded |
| `Resources.Convert` | library/ZendAmf/Parser/TypeLoader.php:174-189 | the loop with its two catch clauses, for at most `fuel` passes; a returned value is never a resource |
| `Resources.ConvertLooksUpEachResource` | library/ZendAmf/Parser/TypeLoader.php:174-175 | a non-resource is returned unchanged with no lookup. Otherwise there is one lookup per resource of the chain, with that resource's normalised tag, and the chain starts at the input |
| `Resources.ConvertConstructsEachHandler` | library/ZendAmf/Parser/TypeLoader.php:174-185 | one handler construction per resource of a successful chain, whose returned value is not a resource; a failed chain may lack only the last construction |
| `Resources.ConvertRewrapsFailures` | library/ZendAmf/Parser/TypeLoader.php:186-189 | every exception leaving the loop is the catch clauses' rewrapping of its cause, naming the resource that was being converted |
| `Resources.ConvertUnfinished` | library/ZendAmf/Parser/TypeLoader.php:174 | a run is cut off only while still holding a resource, after exactly `fuel` passes |
| `Resources.ConvertFuelIrrelevant` | library/ZendAmf/Parser/TypeLoader.php:174-184 | a run that finished within some fuel gives the same result with any larger amount of fuel |
| `Resources.HandleResource` | library/ZendAmf/Parser/TypeLoader.php:168-191 | `handleResource`: the loader check at 170-172, then the loop. `HandleResourceOutcomes` states what it promises |
| `Resources.HandleResourceOutcomes` | library/ZendAmf/Parser/TypeLoader.php:168-191 | with no loader: the configuration error for any input, with no lookup. With a loader: a plain value comes back unchanged with no lookup. A returned value is never a resource; every exception is `InvalidArgumentException` or `RuntimeException` |
| `Resources.MissingHandlerIsInvalidArgument` | library/ZendAmf/Parser/TypeLoader.php:176-177 | no handler (or a falsy class name) ends in `InvalidArgumentException("Can not serialize resource type: " + type)` with code 0, wrapping the module's `RuntimeException` |
| `Resources.MissingParseIsInvalidArgument` | library/ZendAmf/Parser/TypeLoader.php:180-181 | a handler without `parse()` ends in `InvalidArgumentException("Could not call parse() method on class " + class)` wrapping the `RuntimeException` |
| `Resources.ForeignParseErrorIsRuntime` | library/ZendAmf/Parser/TypeLoader.php:188-189 | a non-module exception from `parse()` ends in `RuntimeException("Can not serialize resource type: " + type)` with code 0, wrapping it |
| `Resources.TwoStepChain` | library/ZendAmf/Parser/TypeLoader.php:174-185 | resource → resource → plain returns the plain value after exactly two lookups and two handler constructions |
| `TypeLoaders.TypeLoader.constructor` | library/ZendAmf/Parser/TypeLoader.php:32-56 | the initial live map equals the default map, and no loader is bound |
| `TypeLoaders.TypeLoader.SetMapping` | library/ZendAmf/Parser/TypeLoader.php:110-113 | the live map becomes `Put(old map, a, b)` with unique keys kept; the loader binding is unchanged |
| `TypeLoaders.TypeLoader.ResetMap` | library/ZendAmf/Parser/TypeLoader.php:120-123 | the live map is exactly the six default pairs, whatever came before; the loader binding is unchanged |
| `TypeLoaders.TypeLoader.GetResourceLoader` | library/ZendAmf/Parser/TypeLoader.php:130-133 | returns the current binding |
| `TypeLoaders.TypeLoader.SetResourceLoader` | library/ZendAmf/Parser/TypeLoader.php:140-143 | binds the loader; the class map is unchanged, and keeps unique keys |
| `TypeLoaders.TypeLoader.HandleResource` | library/ZendAmf/Parser/TypeLoader.php:168-191 | the imperative loop's outcome, chain, lookups and constructions are exactly those of the specification `Resources.HandleResource` |
| `TypeLoaders.RunLoopBody` | library/ZendAmf/Parser/TypeLoader.php:175-183 | the loop body, written as statements, computes the same step as `Resources.StepOn` |

## Left out

- PHP's loose `==` in `array_search` (lines 84, 90) is modelled as exact string equality.
- Other PHP array quirks are not modelled:
  - numeric-string keys being coerced to integers;
  - `array_flip` warnings;
  - locale-dependent `ucwords`.
- Upper-casing is ASCII only. Characters stand for PHP's bytes, which does not change a normalised tag: a multi-byte character becomes several spaces, and all of them are removed.
- `class_exists` and autoloading (line 70) belong to the host type system. They are the parameter `classExists` of `LoadType`.
- `PluginClassLocator::load` (line 156) is a foreign service. It is the function `Loader`, from a normalised tag to a handler, no handler, or a thrown exception.
- `is_resource` and `get_resource_type` are the constructor and field of `Val.Resource`.
- Concrete resource handlers are not part of this model. A handler is abstract data:
  - its class name;
  - whether its constructor throws;
  - whether it has `parse()`;
  - `parse()` as a function from value to result.
- Side effects of `parse()` are not modelled, for example a handler that rebinds the loader in the middle of the loop.
- `new $resclass` on a class that does not exist (line 179) is a fatal `Error`, not a catchable `\Exception`. Like every other non-`\Exception` throwable, it is not modelled.
- The unused `$callbackClass` (line 27) is not modelled.
- Direct writes to the public static `$classMap` from outside the class are not modelled. The map changes only through `SetMapping` and `ResetMap`.
- `TypeLoaders.TypeLoader.HandleResource`: the source loop has no bound, and the model cannot express a run that never ends. So the method and `Resources.Convert` make at most `fuel` calls to `parse()`, and report `Unfinished` when a chain is longer. `Resources.ConvertFuelIrrelevant` shows that fuel never changes a run that finishes.
- There is no concurrency in the source. The static state is the fields of one `TypeLoader` object.
