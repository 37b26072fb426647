# Dice, ConfigTrait and ValueBinder in Dafny

This project models three sequential components of a PHP framework and
proves properties of the models:

- **Dice**, a dependency injection container (`src/Support/Dice.php`).
  - It keeps a registry of rules keyed by normalised class name. `addRule`
    deep-merges each new rule over the existing one, after merging in the
    rule of its `instanceOf` alias and lifting its `substitutions`.
  - `getRule` resolves a name in a fixed order: the exact key, then the
    first inherited parent rule in registration order, then the `*` rule,
    then `[]`.
  - `create` returns a stored shared instance, or builds the closure for a
    name once, caches it and calls it. The closures are layered: the base
    constructor call, the `shared` wrapper, the `shareInstances` wrapper
    and the `call` wrapper.
  - `getParams` matches constructor parameters against a pool of supplied
    values.
  - `expand` interprets the `CI::INSTANCE`, `CI::GENERAL` and `CI::FIXED`
    markers.
- **ConfigTrait** (`src/Support/ConfigTrait.php`), a configuration tree
  addressed by dotted paths. It supports read, write without merging,
  delete, `configHas` and the `config` dispatcher.
- **ValueBinder** (`src/Database/Query/ValueBinder.php`), SQL placeholder
  generation. It holds a bindings map and a counter.

## Files

| file | contents |
|---|---|
| `php_values.dfy` | module `PhpValues`: PHP values, with an ordered array as a key order plus a map. Also `isset`, `$a[$k] = $x`, `unset`, `(bool)` and `array_replace_recursive`. |
| `php_strings.dfy` | module `PhpStrings`: `strtolower`, `ltrim`, `explode('.')` and decimal printing of integers. |
| `dice_world.dfy` | module `DiceWorld`: what reflection would see, i.e. a table of classes with constructor parameters and methods, the subclass relation, `instanceof` and the `is_<type>` checks. |
| `dice_rules.dfy` | module `DiceRules`: the rule registry as pure functions (`getRule`'s lookup and `addRule`'s result), with lemmas. |
| `dice_args.dfy` | module `DiceArgs`: the parameter-matching loop of `getParams` as a pure plan, with lemmas. |
| `dice.dfy` | module `DiceContainer`: class `Dice` with the fields `rules`, `cache` and `instances`, and the methods that change them. |
| `config.dfy` | module `Config`: class `ConfigStore` with the field `config`, the path functions, and lemmas about them. |
| `value_binder.dfy` | module `ValueBinding`: class `ValueBinder` with the fields `bindings` and `bindingsCount`, and lemmas. |

Reflection is modelled by an explicit table, `DiceWorld.World`.
- Each class records:
  - whether it is an interface, abstract or internal;
  - its constructor's parameters, if it has a constructor;
  - its methods.
- Each parameter records its class or type hint, whether it allows null,
  whether it is variadic, and its default.
- The subclass relation, the `is_<type>` checks and `is_callable` are
  parameters of the world.

Object allocation is modelled by the `Dice` fields `nextId` and
`constructed`:
- an object is a handle with the class it was created from;
- `constructed` records the argument list each constructor received;
- `calls` records the methods the `call` wrapper invoked.

The methods of `Dice` that create objects are mutually recursive. They take
a `fuel` argument that bounds the depth of nested creations. `OutOfFuel`
stands for the stack overflow PHP reaches on a dependency cycle that is not
shared.

## Model

| member | source | states |
|---|---|---|
| DiceWorld.FindClass | src/Support/Dice.php:113 | A class is found exactly when its normalised name is in the class table. |
| DiceWorld.CanonIgnoresSlashAndCase | src/Support/Dice.php:69 | A leading backslash and letter case do not change the normalised name. |
| PhpStrings.LowerTrimCommute | src/Support/Dice.php:47 | Lowercasing then trimming backslashes (`addRule`) gives the same key as trimming then lowercasing (`getRule`). |
| PhpStrings.LTrimSpec | src/Support/Dice.php:44 | `ltrim($s, '\\')` is a suffix of `$s`. Everything it dropped is a backslash, and it does not start with one. |
| DiceRules.FirstInherited | src/Support/Dice.php:73-79 | Returns the first registered rule that matches: not an `instanceOf` rule, not `*`, a strict parent of the name, and not `inherit => false`. Every earlier rule does not match; none means no rule matches. |
| DiceRules.RuleForOrder | src/Support/Dice.php:68-82 | `getRule` returns the exact stored rule when it is set. Otherwise it returns the first inherited match in registration order, otherwise the `*` rule, otherwise `[]`. |
| DiceRules.RuleForVariant | src/Support/Dice.php:69-71 | Two names that differ only in case or leading backslashes get the same rule. |
| DiceContainer.Dice.GetRule | src/Support/Dice.php:68-82 | The scan loop returns exactly the rule that `RuleFor` specifies. |
| DiceRules.InheritFalseSkipsAlias | src/Support/Dice.php:37-39 | With `inherit` present and not `true`, the alias's rule is not merged in. |
| DiceRules.AliasMerge | src/Support/Dice.php:37-39 | With `instanceOf` set and inheriting, the result has the alias rule's keys and the new rule's keys. The new rule's entries win, merged recursively, and keys only in the alias rule keep their elements. |
| DiceRules.LiftedEntry | src/Support/Dice.php:41-46 | Each substitution is written at the top level of the rule under its key without leading backslashes, when no later substitution trims to the same key. |
| DiceRules.LiftedKeepsOthers | src/Support/Dice.php:41-46 | Lifting the substitutions leaves every other top-level key as it was, including `substitutions` itself. |
| DiceContainer.LiftSubstitutions | src/Support/Dice.php:41-46 | The `foreach` over the substitutions computes `Lifted`. |
| DiceRules.GetAfterAdd | src/Support/Dice.php:47-71 | After `addRule($name, ...)`, `getRule` on any case or backslash variant of the name returns the new rule replaced recursively over the name's previous rule. |
| DiceRules.AddMerges | src/Support/Dice.php:47 | Re-registering a name keeps exactly the keys of the old rule and the new rule. Keys of the new rule get the recursively merged element, and keys only in the old rule survive unchanged. |
| DiceRules.AddKeepsOthers | src/Support/Dice.php:47 | `addRule` appends the storage key when it is new and otherwise keeps the order. It leaves every other stored rule as it was. |
| DiceRules.AddedRuleKeys | src/Support/Dice.php:47 | `addRule` stores the name's key and keeps every other key. |
| DiceContainer.Dice.AddRule | src/Support/Dice.php:35-48 | Changes only `rules`, to exactly `AddedRule` of the old rules, keeping the container valid. |
| DiceContainer.StoredKeys | src/Support/Dice.php:58-60 | Every entry's storage key is among the keys `addRules` stores. |
| DiceContainer.AddedAllKeys | src/Support/Dice.php:58-60 | After `addRules`, the registry holds exactly the keys it held before plus each entry's storage key. |
| DiceContainer.Dice.AddRules | src/Support/Dice.php:54-61 | Changes only `rules`, to the result of `addRule` on each entry in order (`AddedAll`). |
| DiceContainer.CheckParams | src/Support/Dice.php:217-219 | Reflecting the parameters succeeds only when every class hint names an existing class. It fails for a non-array `substitutions` entry when there is a parameter to check. |
| DiceContainer.Reflect | src/Support/Dice.php:110-117 | The reflected class is the `instanceOf` alias when set, else the name. A missing class throws a ReflectionException. On success the recipe keeps the name, the rule and the class from the table, and every hinted class exists. |
| DiceContainer.Dice.Create | src/Support/Dice.php:91-102 | A stored truthy shared instance is returned with no state change. Otherwise a name not yet cached is reflected once: a failure is returned with no change, and a success is cached under the name. A successful call returns what `CreateResult` says: the object stored under the name before, or what the name's cached closure made (`Made`: a fresh object of the class, which is neither an interface nor abstract, constructed with the arguments the plan over `$args`, the expanded `parameters` and a `$share` extended by `shareInstances` resolved to, slot by slot). For a shared rule without `call`, the result is the instance stored under the name. Rules and cached closures never change. |
| DiceContainer.Dice.CreateUninstantiable | src/Support/Dice.php:119-144 | `create` of a name that reaches an interface or an abstract class, with no truthy instance stored under it, fails, whether the rule is shared or not. |
| DiceContainer.Dice.CreateTwice | src/Support/Dice.php:91-95 | For a shared rule without `call`, a second `create` of the same name, with any arguments, returns the same instance as the first successful one. |
| DiceContainer.Dice.Invoke | src/Support/Dice.php:166-177 | The `call` wrapper returns what the inner closures made (see `ShareLayer`). Without `call` the shared result is where `Stored` says. With a `call` list, every entry's method was invoked on the returned object, one recorded call per entry, in list order and after everything before this call. |
| DiceContainer.Dice.CallAll | src/Support/Dice.php:170-176 | The `foreach` over the `call` list: on success the object is returned and each entry's method was recorded on it, in order (`RanInOrder`). The first failing entry stops the loop. |
| DiceContainer.Dice.CallEntry | src/Support/Dice.php:172-173 | One entry of the `call` list: after the earlier entries ran in order, a successful call extends that record by this entry's call. |
| DiceContainer.Dice.CallMethod | src/Support/Dice.php:170-175 | A malformed entry throws with no state change, and a missing method throws a ReflectionException with no state change. On success the call on this object is the last recorded call. |
| DiceContainer.Dice.ShareLayer | src/Support/Dice.php:156-163 | Without a `shareInstances` list the inner closure gets `$share` as it is. With one, it gets `$share` followed by, for each listed name in turn, what `create` of that name returned with the instances shared so far (`Shares`). Either way the inner closure's object is made and stored as `Made` and `Stored` say, from that extended `$share`. |
| DiceContainer.Dice.ShareAll | src/Support/Dice.php:158-160 | Each listed name is created in turn and appended: the result is `$share` followed by one null or object per name, and element `|$share|+j` is what `create` of name `j` returned with `[]` and the instances before it: the object stored under that name, or what its closure made (`Shares`). A name that is not a string fails. |
| DiceContainer.Dice.ShareEntry | src/Support/Dice.php:158-159 | One listed name: a name that is not a string fails; otherwise what `create` of it returned, with `[]` and the instances shared so far, is appended and explained as `Shares` says. |
| DiceContainer.Dice.Shared | src/Support/Dice.php:137-154 | Without `shared`, an interface throws InvalidArgumentException with no state change. With `shared`, a non-internal interface or abstract class is a fatal error with no state change. On success the object made is the next fresh object, constructed from the pool. The closure returns it without `shared`, returns null for a shared internal class, and otherwise returns what the name holds, with both names stored. |
| DiceContainer.Dice.SharedInternal | src/Support/Dice.php:140-142 | An internal shared class is built by the inner closure as the next fresh object and stored under both names. The wrapper returns null. |
| DiceContainer.Dice.SharedObject | src/Support/Dice.php:143-151 | The next fresh object is stored under both names before its constructor runs. On success it was constructed with the arguments the plan over the pool resolved to (`Built`), and the wrapper returns what the name holds afterwards. |
| DiceContainer.Dice.Construct | src/Support/Dice.php:147-150 | With the object already stored under both names, its constructor arguments are resolved. On success the constructor took them (the world's `accepts`, so a list PHP rejects with an ArgumentCountError or TypeError is a failure, the object staying stored), they are recorded for it as `Built` says, and the result is what the name holds afterwards. |
| DiceContainer.Dice.Base | src/Support/Dice.php:119-136 | An interface throws InvalidArgumentException and an abstract class throws an Error, both with no state change. Otherwise the result is the next fresh object of the class. When the class has a constructor, its arguments are those the plan over the pool resolved to, slot by slot, and the constructor took them (`Built`): a list it rejects with an ArgumentCountError or TypeError is a failure. |
| DiceContainer.Dice.ArgPool | src/Support/Dice.php:225 | The pool is `$args`, then the expanded `parameters` when set, then `$share` (`PoolOf`). It is `$args` unchanged, with no state change, when there is no `$share` and no `parameters`. |
| DiceContainer.Dice.Fill | src/Support/Dice.php:241-252 | The slot's arguments are its piece of the outcome, and the outcome fits the slot (`Fitted`): a matched or default slot gives its value, a variadic slot the rest of the pool, a positional value its expansion. A fallback takes the substitution's expansion (strings created) or the value of `create` of the class; that value becomes the argument, an InvalidArgumentException drops it, and any other failure propagates. Without a substitution, the value is what `create($class, [], $share)` returned (`CreateResult`): the object stored under the class before, or what the class's closure made from `[]` and `$share` extended. |
| DiceContainer.Dice.ResolveArgs | src/Support/Dice.php:223-255 | The pool is `$args`, the expanded `parameters` and `$share` (`PoolOf`), and the argument list is what the plan's slots over that pool produced, slot by slot, each slot's value fitting it (`Resolved`). |
| DiceContainer.Dice.FillNext | src/Support/Dice.php:230-253 | After the earlier slots produced the arguments so far, a success appends this slot's arguments, keeping the list `Resolved` by the longer plan. |
| DiceContainer.ResolvedConforms | src/Support/Dice.php:230-254 | A list of arguments resolved slot by slot conforms to the plan (`Conforms`): one value per matched, default, positional or created slot, the rest of the pool for a variadic one. |
| DiceContainer.UninstantiableArgument | src/Support/Dice.php:241-245 | A class-hinted parameter with no fitting value and no substitution, whose class is an interface or abstract and has no object stored, is dropped after an InvalidArgumentException. |
| DiceContainer.AutowiredArgument | src/Support/Dice.php:241-245 | A class-hinted parameter that no pooled value fits and has no substitution gets at most one argument, null or an object, and is dropped only when creating the class threw InvalidArgumentException. |
| DiceContainer.PositionalArgument | src/Support/Dice.php:250 | A supplied value taken by position gives exactly one argument, its expansion. |
| DiceArgs.FirstAccepted | src/Support/Dice.php:232-238 | The first pool value that is an instance of the hinted class, or null where null is allowed. No earlier value fits. |
| DiceArgs.Take | src/Support/Dice.php:230-253 | One parameter's slot. A class-hinted parameter takes a value it accepts, or falls back to creation, leaving the pool unchanged, when it accepts no pooled value. Otherwise a variadic parameter takes the whole pool, and an untyped parameter or one passing `is_<type>` takes the first value and removes it. Anything else gets its default or null and leaves the pool unchanged. Which value a class hint takes is `TakeFirstFit`. |
| DiceArgs.TakeConserves | src/Support/Dice.php:235-250 | One pass neither duplicates nor loses a pool value (multiset equality). |
| DiceArgs.Plan | src/Support/Dice.php:230 | One slot per parameter. |
| DiceArgs.PlanConserves | src/Support/Dice.php:230-253 | Over the whole loop, the used values plus those left over are exactly the pool, so no supplied value is used twice. |
| DiceArgs.TakeFirstFit | src/Support/Dice.php:232-237 | A class-hinted parameter takes the first value that fits, wherever it stands, and removes just that value. |
| DiceArgs.UntypedInOrder | src/Support/Dice.php:250 | Untyped non-variadic parameters take the supplied values in order, one each. |
| DiceArgs.ConformsSimple | src/Support/Dice.php:230-254 | When every slot gives one known value, the argument list is exactly those values, one per parameter, in order. |
| DiceArgs.ConformsSnoc | src/Support/Dice.php:235-252 | Appending the arguments a slot allows (`Gives`) keeps the list conforming. |
| DiceArgs.ConformsLast | src/Support/Dice.php:230-254 | A list conforms to a plan when its last slot's arguments end it and the rest conforms to the earlier slots. |
| DiceContainer.Dice.Expand | src/Support/Dice.php:187-206 | The result is an expansion of the input (`Expands`). A non-array that is not a string to create is returned unchanged. `CI::GENERAL` yields its value and `CI::FIXED` is a fatal error, both with no state change. |
| DiceContainer.Dice.ExpandInstance | src/Support/Dice.php:190-199 | The target and the parameters are those `InstancePartsOf` describes, and the target is not callable. The result is what `create` of the name returned (`CreateResult`): the instance stored under the name just before that call, or what the name's closure made from the expanded `params` followed by `$share`. |
| DiceContainer.Dice.InstanceParts | src/Support/Dice.php:193-196 | The parameters are the expansion of `params`, or `[]` without it. A non-array target is kept as it is. An array target keeps everything but element 0, which becomes its expansion with strings created (null when absent). |
| DiceContainer.Dice.ExpandElements | src/Support/Dice.php:202 | A plain array keeps its keys in order, and each element is replaced by its expansion. |
| PhpValues.ReplaceEntry | src/Support/Dice.php:38-47 | `array_replace_recursive`: a replacement key gets the recursively merged element, and a key only in the base keeps its element. |
| PhpValues.ReplaceOrder | src/Support/Dice.php:38-47 | `array_replace_recursive` keeps the base's key order and appends the replacement's new keys in its order. |
| Config.ConfigStore.Config | src/Support/ConfigTrait.php:69-78 | An array key or a second argument writes and returns the object (or throws). Anything else reads without changing the config. |
| Config.ConfigStore.ConfigRead | src/Support/ConfigTrait.php:118-140 | Returns `Read`: the whole config for null, else the element along the dotted path or null. |
| Config.ConfigStore.ConfigWrite | src/Support/ConfigTrait.php:152-197 | The new config and the thrown message are exactly `Write`: a string key with null deletes, an array key writes each entry, and a dotted key writes along the path. |
| Config.ConfigStore.WriteEach | src/Support/ConfigTrait.php:169-174 | Writing an array of keys writes each entry in order and stops at the first exception. |
| Config.ConfigStore.SetPath | src/Support/ConfigTrait.php:181-196 | The loop succeeds exactly when `WritePath` does, and then leaves exactly its result. On failure the config is unchanged. |
| Config.ConfigStore.ConfigDelete | src/Support/ConfigTrait.php:206-233 | The new config and the thrown message are exactly `Delete`. |
| Config.ConfigStore.UnsetPath | src/Support/ConfigTrait.php:213-232 | The loop succeeds exactly when `DeletePath` does, and then leaves exactly its result. On failure the config is unchanged. |
| Config.ConfigStore.ConfigHas | src/Support/ConfigTrait.php:241-244 | True exactly when the top-level key is set and not null. |
| Config.WritePath | src/Support/ConfigTrait.php:181-196 | A successful dotted write yields a well-formed array. |
| Config.DeletePath | src/Support/ConfigTrait.php:213-232 | A successful dotted delete yields a well-formed array. |
| Config.ReadUndotted | src/Support/ConfigTrait.php:124-137 | An undotted read equals the one-segment path walk. |
| Config.HasIffReadNotNull | src/Support/ConfigTrait.php:241-244 | `configHas($k)` holds exactly when `configRead($k)` is not null, for an undotted key. |
| Config.WriteThenRead | src/Support/ConfigTrait.php:118-196 | Round trip: after a successful write, reading the same path gives the value written. |
| Config.WriteFailsIff | src/Support/ConfigTrait.php:184-187 | A write throws "Cannot set" exactly when some proper prefix of the path holds a scalar. |
| Config.WriteKeepsOtherPaths | src/Support/ConfigTrait.php:181-196 | A write leaves every path that parts from the written one reading as before. |
| Config.DeleteThenRead | src/Support/ConfigTrait.php:226-228 | After a successful delete the path reads null. |
| Config.DeleteAbsentUnchanged | src/Support/ConfigTrait.php:222-224 | Deleting a path that reads null leaves the config unchanged. |
| Config.DeleteFailsIff | src/Support/ConfigTrait.php:218-220 | A delete throws "Cannot unset" exactly when some proper prefix of the path reaches a scalar before a missing segment. |
| Config.DeleteKeepsOtherPaths | src/Support/ConfigTrait.php:213-232 | A delete leaves every path that parts from the deleted one reading as before. |
| PhpStrings.Explode | src/Support/ConfigTrait.php:182 | `explode('.')` yields at least one segment and no segment contains a dot. There is a single segment exactly when the key has no dot. |
| PhpStrings.ImplodeExplode | src/Support/ConfigTrait.php:182 | Joining the segments with dots gives back the key. |
| ValueBinding.ValueBinder.Bind | src/Database/Query/ValueBinder.php:35-38 | `bindings[$param] = $value`, overwriting any earlier value. The counter is unchanged. |
| ValueBinding.ValueBinder.Placeholder | src/Database/Query/ValueBinder.php:49-58 | Returns the placeholder for the token at the current count. The counter moves by one exactly for a counted token (one starting with `:`, or exactly `?` or `param`), and the bindings are unchanged. |
| ValueBinding.PlaceholderText | src/Database/Query/ValueBinder.php:51-56 | A placeholder starts with `:` and is longer than its token. |
| ValueBinding.PlaceholderTextParts | src/Database/Query/ValueBinder.php:51-56 | A placeholder is `:` and the token, followed by the count in decimal exactly when the token is counted. |
| ValueBinding.ValueBinder.Placeholders | src/Database/Query/ValueBinder.php:67-77 | The result has exactly the input's keys in order, each mapped to its placeholder at the running count. The counter and the bindings are those of the calls in order. |
| ValueBinding.ListingSpec | src/Database/Query/ValueBinder.php:69-76 | The returned array has exactly the input's keys, in order, each mapped to its own name. |
| ValueBinding.NamesEntry | src/Database/Query/ValueBinder.php:70-71 | Each key's name is the placeholder of that key at the count the earlier keys left. |
| ValueBinding.BindAllLookup | src/Database/Query/ValueBinder.php:72 | A name that no later entry reuses is bound to its own entry's value. |
| ValueBinding.BindAllKeys | src/Database/Query/ValueBinder.php:72 | The bound keys are the earlier ones plus every generated name, and untouched keys keep their values. |
| ValueBinding.CountAfterMonotone | src/Database/Query/ValueBinder.php:54 | The counter never goes back, and a counted token strictly advances it. |
| ValueBinding.SameTokenDistinct | src/Database/Query/ValueBinder.php:53-56 | The same counted token at two different counts gives two different placeholders. |
| ValueBinding.SuccessiveNamesDistinct | src/Database/Query/ValueBinder.php:53-56 | Within one `placeholders` call, repeated counted tokens get distinct names. |
| ValueBinding.DefaultTokensDistinct | src/Database/Query/ValueBinder.php:49-56 | Placeholders of `param` and `?` collide only for the same token at the same count. |
| ValueBinding.DifferentTokensCollide | src/Database/Query/ValueBinder.php:51-55 | `:a` at count 10 and `:a1` at count 0 give the same placeholder `::a10`. |
| PhpStrings.NatToStringInjective | src/Database/Query/ValueBinder.php:55 | Different counts print differently. |
| PhpStrings.ParseNatToString | src/Database/Query/ValueBinder.php:55 | Reading the printed count back gives the count. |
| ValueBinding.ValueBinder.Bindings | src/Database/Query/ValueBinder.php:85-88 | Returns the bindings. |
| ValueBinding.ValueBinder.Reset | src/Database/Query/ValueBinder.php:95-99 | Empties the bindings and sets the counter to 0. |
| ValueBinding.ValueBinder.ResetCount | src/Database/Query/ValueBinder.php:106-109 | Sets the counter to 0 and keeps the bindings. |

## Left out

- `addRules` with a file name: reading and decoding a JSON file is I/O. The model takes the decoded array.
- DiceContainer.Dice.AddRule, DiceContainer.Dice.AddRules: an `instanceOf` that is not a string is excluded by the precondition (`Usable`). PHP would pass an integer to `getRule(string)` after conversion, and any other value is a TypeError.
- Dice: object bodies. Constructors and methods are not executed; the model records only which arguments each constructor received and which methods were called.
- DiceContainer.Dice.Base, DiceContainer.Dice.Construct: whether a constructor takes an argument list (its arity and declared types) is the world's `accepts`, not derived from the reflected parameters. A rejected list is the `FatalError` failure; the exception a constructor body throws is not modelled.
- DiceWorld.FindClass: the class table is keyed by the name with every leading backslash removed. PHP's class lookup removes only one, so `create('\\\\Foo')` (two backslashes) finds `Foo` in the model but throws a ReflectionException in PHP.
- DiceContainer.Dice.Create: the `fuel` bound stands for PHP's stack depth. Running out is the `OutOfFuel` failure, not a PHP error.
- DiceContainer.Dice.Create: `$args` and `parameters` are taken as lists. The source misbehaves on other keys: a string key makes `array_splice($args, $i, 1)` fail with a TypeError, and an integer key that is not the position splices the wrong element, so `create('X', [1 => $foo])` passes null to a parameter `$foo` fits.
- DiceContainer.Dice.Create: the object a shared rule's closure returns is promised to be the stored instance only for a rule without `call` (`SharedObjectRule`), because expanding a call entry's arguments may create and store another object under the same name.
- DiceContainer.Dice.SharedObject: the result is what the name holds after construction, not necessarily the fresh object. A nested creation of a name with the same `ltrim` (such as `\Foo` while creating `Foo`) overwrites it.
- DiceContainer.Dice.Invoke: with a `call` list on a shared class, the result is the object the calls ran on. That it was the stored instance when the inner closure returned is stated by `ShareLayer`, not carried through the calls.
- DiceContainer.Dice.ResolveArgs: for a dependency created by name, `Resolved` says which closure made the argument and what that closure returned (`Returned`), not how that object's own constructor arguments were resolved. The full account of a nested creation is in `Fill`'s and `Create`'s contracts (`CreateResult`, `Made`), one level at a time.
- Dice: callables in `expand` (`call_user_func` on a `CI::INSTANCE` that `is_callable` accepts) and the `call` callback `$call[2]` run foreign code. The model reports the first as the `ForeignCall` failure and ignores the second.
- DiceContainer.Dice.CallMethod: the reflection of the called method's own parameters (`getParams($class->getMethod(...))`) is not modelled. The method receives the argument closure, not arguments. A call entry that is not an array with a string at index 0 is treated as a fatal error.
- Dice: `is_<type>` for a type with no such function is a parameter of the world, like the other type checks.
- Dice: `expand`'s `CI::FIXED` calls a function `FIXED()` that does not exist. It is modelled as the fatal error it raises.
- ConfigTrait: the merging paths of `configWrite` (`Arraybag::expand`, `Arraybag::merge`, `'shallow'`). `Arraybag` is not part of this model. A merge is only accepted where the null-value delete happens first.
- Dice, ConfigTrait and ValueBinder: PHP converts numeric string keys such as `"1"` to integer keys. The model keeps the key as given. This concerns rule names such as `"123"`, lifted substitution keys, configuration paths and binding names.
- Config.ConfigStore.ConfigWrite: an array key must have string keys (`StringKeyed`), so `configWrite([0 => 'x'])` is excluded by the precondition. In the source an integer entry key is written directly, with no null-delete and no dotted path.
- ValueBinding.ValueBinder.Placeholders: integer keys are excluded (`StringKeyed`). PHP's `$token[0]` on an integer and the loose comparison `0 != 'param'` are not modelled.
- No floating point, concurrency or network is involved.

## Where the code and its documentation differ

The model follows the code in each of these cases.

- `array_replace_recursive` replaces list entries by index; it does not
  append them. Lists in two merged rules (for example `call` or
  `shareInstances`) are therefore not unioned.
- A variadic parameter receives all remaining values, but `$args` is not
  emptied. This makes no difference because the loop over parameters ends
  at a variadic parameter.
- `addRule` writes the trimmed substitution keys at the top level of the
  rule, not inside `substitutions`. `getParams` then looks the hinted class
  up in `substitutions` under its declared name.
- The `shared` wrapper of an internal class stores the object but returns
  nothing.
- The docblock of `placeholder` says a token starting with `:` is returned
  unchanged. The code prefixes another `:` and appends the counter.
- Placeholders are unique per token but not across tokens: `:a` at count 10
  and `:a1` at count 0 both give `::a10` (`DifferentTokensCollide`).
- The `call` wrapper passes the argument closure itself to the method.
