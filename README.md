# WordPress plugin framework core, modelled in Dafny

The Great Scott Plugins WordPress framework gives plugin authors four pieces:

- **A singleton registry.**
  - `Singleton::instance()` keeps one component object per class in a shared map.
  - The first call for a class constructs the object and stores it.
  - It then runs the object's `addDocHooks` and then its `init` with the call's arguments.
  - Every later call returns the stored object.
- **A doc-comment hook engine.**
  - `ActionDecoratorHooks::addDocHooks` reads the doc comment of every method of the component.
  - It turns each `* @filter`, `* @action` or `* @shortcode` annotation into a WordPress hook registration.
  - It turns each `* @command` annotation into a WP-CLI command.
  - It turns each `* @ajax` annotation into two ajax actions.
  - The `addAction`, `addFilter`, `addShortcode` and `addHook` helpers supply the default priority and argument count.
- **A REST route builder.**
  - `ApiDecoratorHooks` keeps a namespace, a version, a subspace and a route table for each class.
  - `addApiHooks` sets them from `* @api-<key> <value>` lines in the class doc comment.
  - `registerEndpoints` registers every route under `namespace/v<version>[/subspace]`.
  - When the namespace or the version is empty, it registers nothing.
- **A snake-case conversion**, `Strings::toSnakeCase`. It is the intended fallback name of an ajax handler.

The model treats the host (WordPress and WP-CLI) as an append-only log of registration records (`Host.HostLog`). It treats PHP reflection as data: a method is a name, a parameter count and a doc comment (`Reflection`). Two parts of the model follow the imperative source closely:

- The loops of `addDocHooks`, `addApiHooks` and `registerEndpoints` are `method`s with loop invariants. Each is proved to produce exactly the log or state that a function of the inputs defines.
- The static fields of the API trait are the fields of `ApiHooks.ApiSettings`.
- The `$instances` map is a field of `Singleton.Registry`. A ghost trace records the steps `instance()` takes. `init` may itself call `instance()`, for its own class or another. That re-entrancy is modelled by giving each class the list of `instance()` calls its `init` makes.

The four `preg_match_all` patterns are written out by hand as matchers (`DocScan`). Each handles the edge cases of its pattern:

- The name class is lower case only.
- The priority needs white space after its comma.
- The lazy `\s+?` of the ajax pattern takes exactly one white-space character.
- `\S+` / `\s+` / `.+` in the API pattern give back white space only at the end of the subject.

The global scan is proved to be the unique ordered, non-overlapping, complete scan (`DocScan.MatchAllIsScan`).

Modules, one per file:

| file | module | models |
|---|---|---|
| `wrappers.dfy` | `Wrappers` | `Option`, `Result` |
| `strings.dfy` | `Strings`, `SnakeCaseExamples` | `src/Util/Strings.php`, `strtolower`, `ucfirst` |
| `doc_scan.dfy` | `DocScan` | the four annotation patterns and `preg_match_all` |
| `annotations.dfy` | `Annotations` | annotation lines and what the patterns read back from them |
| `reflection.dfy` | `Reflection` | reflection data, `method_exists` |
| `host.dfy` | `Host` | the WordPress / WP-CLI registration log |
| `action_hooks.dfy` | `ActionHooks` | `src/Hooks/ActionDecoratorHooks.php` |
| `api_hooks.dfy` | `ApiHooks` | `src/Hooks/ApiDecoratorHooks.php` |
| `singleton.dfy` | `Singleton` | `src/Singleton.php` |
| `doc_hook_facts.dfy` | `DocHookFacts` | whole-comment properties of `addDocHooks` |

## Model

| member | source | states |
|---|---|---|
| Strings.LowerChar | src/Util/Strings.php:42 | `strtolower` on one character: A-Z goes to the letter 32 code points up, every other character is unchanged, and no result is upper case |
| Strings.UpperChar | src/Hooks/ApiDecoratorHooks.php:191 | `strtoupper` on one character, as `ucfirst` uses it: a-z goes 32 code points down, everything else is unchanged |
| Strings.Lower | src/Util/Strings.php:42 | `strtolower` keeps the length and lower-cases character by character |
| Strings.UcFirst | src/Hooks/ApiDecoratorHooks.php:191 | `ucfirst` keeps the length, upper-cases the first character and keeps the rest |
| Strings.LowerUcFirst | src/Hooks/ApiDecoratorHooks.php:191-193 | a case-insensitive comparison cannot see `ucfirst`: `Lower(UcFirst(s)) == Lower(s)` |
| Strings.ToSnakeCase | src/Util/Strings.php:41-43 | the result has no A-Z; its length is the input's plus one per A-Z after offset 0; offset 0 gets no underscore, only its lower-case form |
| Strings.SnakeCaseNoUpper | src/Util/Strings.php:42 | a string with no A-Z at all comes back unchanged |
| Strings.SnakeCaseIdempotent | src/Util/Strings.php:42 | converting twice gives the same as converting once |
| Strings.SnakeCaseKeepsOthers | src/Util/Strings.php:42 | every character that is neither a letter nor `_` survives in order, and the underscores added are exactly one per A-Z after offset 0 |
| Strings.InsertUnderscores | src/Util/Strings.php:42 | the replacement keeps the first character and adds one character per A-Z after it |
| Strings.InsertUnderscoresSnoc | src/Util/Strings.php:42 | past offset 0, each further character is replaced on its own: an A-Z becomes `_` and the letter, anything else is kept |
| Strings.SnakeCaseSingle | src/Util/Strings.php:41-43 | a one-character string is only lower-cased |
| Strings.SnakeCaseSnoc | src/Util/Strings.php:41-43 | appending a character after offset 0 appends `_` and its lower-case form when it is A-Z, its lower-case form alone otherwise |
| Strings.SnakeCaseDetermined | src/Util/Strings.php:41-43 | those equations determine the conversion: every function that satisfies them is `toSnakeCase` |
| Strings.UnderscoredLength | src/Util/Strings.php:42 | the replacement adds one character per upper-case letter |
| SnakeCaseExamples.HandleMySubmitExample | src/Util/Strings.php:42 | `HandleMySubmit` and `handleMySubmit` both give `handle_my_submit` |
| SnakeCaseExamples.ConsecutiveCapitalsExample | src/Util/Strings.php:42 | consecutive capitals each get an underscore: `ABC` gives `a_b_c` |
| DocScan.RunEnd | src/Hooks/ActionDecoratorHooks.php:52 | a greedy run of one character class ends at the first character outside the class or at the end of the subject |
| DocScan.RunEndIs | src/Hooks/ActionDecoratorHooks.php:52 | those two properties determine the end of the run |
| DocScan.KindAt | src/Hooks/ActionDecoratorHooks.php:52 | the alternation `filter\|action\|shortcode` finds a kind exactly when its text is at the offset |
| DocScan.PriorityAt | src/Hooks/ActionDecoratorHooks.php:52 | the optional `, <digits>` group: a comma, a non-empty run of white space, then a maximal run of digits; none exactly when no such layout follows the comma |
| DocScan.HookAt | src/Hooks/ActionDecoratorHooks.php:52 | a hook match starts at the offset, ends inside the subject, has a name from `[a-z0-9/=-._]+` and, when present, a priority of digits |
| DocScan.CommandAt | src/Hooks/ActionDecoratorHooks.php:76 | a command match starts at the offset, and its optional name is non-blank and drawn from the name class plus `:` and space |
| DocScan.AjaxAt | src/Hooks/ActionDecoratorHooks.php:91 | an ajax match starts at the offset and its optional name is drawn from the lower-case name class |
| DocScan.LastNonNewline | src/Hooks/ApiDecoratorHooks.php:180 | the last offset in a range that is not a line feed, and only line feeds after it; or only line feeds in the whole range |
| DocScan.ApiAt | src/Hooks/ApiDecoratorHooks.php:180 | an API match starts at `* @api-`; its key is non-empty and free of white space, white space follows it, and its value is non-empty, free of line feeds and runs to the end of the line or subject |
| DocScan.MatchAt | src/Hooks/ActionDecoratorHooks.php:51-56 | a match of a pattern conforms to that pattern, starts at the offset and ends after it |
| DocScan.MatchTable | src/Hooks/ActionDecoratorHooks.php:51-56 | the matcher's answer at every offset of the subject, each match inside the subject |
| DocScan.Scan | src/Hooks/ActionDecoratorHooks.php:51-56 | every match of the scan is the matcher's answer at its own start, from the scan's starting offset on |
| DocScan.MatchAll | src/Hooks/ActionDecoratorHooks.php:51-56 | every match `preg_match_all` returns conforms to its pattern and is the match found at its start |
| DocScan.ScanIsScan | src/Hooks/ActionDecoratorHooks.php:51-56 | the scan is ordered, non-overlapping, and covers every offset where the pattern matches |
| DocScan.ScanIsUnique | src/Hooks/ActionDecoratorHooks.php:51-56 | any sequence with those properties is the scan |
| DocScan.MatchAllIsScan | src/Hooks/ActionDecoratorHooks.php:51-56 | `preg_match_all` returns the global scan of the subject and nothing else has its properties |
| DocScan.MatchAllEmpty | src/Hooks/ActionDecoratorHooks.php:51-56 | `preg_match_all` finds nothing exactly when the pattern matches at no offset |
| Annotations.HookRoundTrip | src/Hooks/ActionDecoratorHooks.php:52 | `* @<kind> <name>[, <digits>]` followed by white space or nothing reads back as its kind, name and priority |
| Annotations.CommandRoundTrip | src/Hooks/ActionDecoratorHooks.php:76 | `* @command <name>` reads back its name, spaces and colons included, and `* @command ` reads back no name |
| Annotations.AjaxRoundTrip | src/Hooks/ActionDecoratorHooks.php:91 | `* @ajax <name>` reads back its name, and `* @ajax ` reads back no name |
| Annotations.AjaxTwoSpacesLoseName | src/Hooks/ActionDecoratorHooks.php:91 | `* @ajax` followed by two white-space characters has no name |
| Annotations.HookUpperInitialNoMatch | src/Hooks/ActionDecoratorHooks.php:52 | a hook name whose first letter is upper case gives no match at all |
| Annotations.CommaWithoutSpace | src/Hooks/ActionDecoratorHooks.php:52 | `foo,5` carries no priority: the comma needs white space after it |
| Annotations.CommaWithoutSpaceMatch | src/Hooks/ActionDecoratorHooks.php:52 | `* @<kind> <name>,` with no white space after the comma still matches: the name alone, no priority, ending before the comma |
| Annotations.ApiRoundTrip | src/Hooks/ApiDecoratorHooks.php:180 | `* @api-<key> <value>` reads back the key and the rest of the line |
| Annotations.KindTextAt | src/Hooks/ActionDecoratorHooks.php:52 | each kind's text is read as that kind |
| Reflection.HasMethod | src/Singleton.php:54-59 | `method_exists` holds exactly when a declared method's name equals the name ignoring ASCII case: whenever the name is declared as written, and never when no name matches ignoring case |
| Reflection.HasMethodIgnoresCase | src/Singleton.php:54-59 | `method_exists` compares names ignoring case |
| Host.HostLog.Record | src/Hooks/ActionDecoratorHooks.php:204 | a host call appends exactly its record to the log |
| ActionHooks.Merge | src/Hooks/ActionDecoratorHooks.php:132-138 | `array_merge`: the keys are those of both arrays, the caller's value wins, and a default survives only where the caller has none |
| ActionHooks.Lookup | src/Hooks/ActionDecoratorHooks.php:200-201 | `$args[key] ?? default`: the caller's value when the key is present, the default otherwise |
| ActionHooks.AddHook | src/Hooks/ActionDecoratorHooks.php:194-205 | forwards kind, name and callback, and takes the priority and argument count from the arguments or else 10 and PHP_INT_MAX |
| ActionHooks.AddAction | src/Hooks/ActionDecoratorHooks.php:126-141 | registers an action with the given name and callback |
| ActionHooks.AddFilter | src/Hooks/ActionDecoratorHooks.php:152-167 | registers a filter with the given name and callback |
| ActionHooks.AddShortcode | src/Hooks/ActionDecoratorHooks.php:177-182 | registers a shortcode at priority 10 with PHP_INT_MAX arguments |
| ActionHooks.AddByKind | src/Hooks/ActionDecoratorHooks.php:62-70 | `'add' . ucfirst($type)` reaches the helper of the annotation's kind, with its name and callback |
| ActionHooks.AddActionDefaults | src/Hooks/ActionDecoratorHooks.php:126-167 | with no arguments, an action and a filter get priority 10 and PHP_INT_MAX arguments |
| ActionHooks.MergeIsRedundant | src/Hooks/ActionDecoratorHooks.php:126-167 | merging the defaults in `addAction`/`addFilter` gives the same registration as `addHook`'s own fall-backs |
| ActionHooks.ShortcodeIgnoresArgs | src/Hooks/ActionDecoratorHooks.php:177-182 | a shortcode's registration does not depend on the arguments handed to it |
| ActionHooks.IntVal | src/Hooks/ActionDecoratorHooks.php:60 | `intval` of a digit string lies in 0..PHP_INT_MAX: exactly the value when it is at most PHP_INT_MAX, PHP_INT_MAX above |
| ActionHooks.AnnotationPriority | src/Hooks/ActionDecoratorHooks.php:60 | no priority and `"0"` give 11; any other digits give their `intval` |
| ActionHooks.PriorityZero | src/Hooks/ActionDecoratorHooks.php:60 | the priority is 0 exactly for strings of two or more zeros |
| ActionHooks.WrittenPriority | src/Hooks/ActionDecoratorHooks.php:60 | every priority from 1 to PHP_INT_MAX written in decimal is registered as written |
| ActionHooks.DecimalValue | src/Hooks/ActionDecoratorHooks.php:60 | decimal text of a positive number denotes that number |
| ActionHooks.AnnotationArgs | src/Hooks/ActionDecoratorHooks.php:69 | `compact('priority', 'arg_count')` holds exactly those two keys with the annotation priority and the method's parameter count, and merging the defaults under it changes nothing |
| ActionHooks.HookRegistration | src/Hooks/ActionDecoratorHooks.php:57-70 | a filter or action match gets its kind, name, the annotation priority, the method's parameter count and the `[$this, method]` callback; a shortcode gets 10 and PHP_INT_MAX |
| ActionHooks.CommandRegistration | src/Hooks/ActionDecoratorHooks.php:81-86 | a command match adds the command under its name, or `null`, with the method's callback |
| ActionHooks.AjaxNameAsWritten | src/Hooks/ActionDecoratorHooks.php:97 | as written: the annotation's name, and a failure when there is none |
| ActionHooks.AjaxName | src/Hooks/ActionDecoratorHooks.php:97 | as intended: the annotation's name, else the method name in snake case |
| ActionHooks.AjaxHookName | src/Hooks/ActionDecoratorHooks.php:106 | `sprintf('%s_%s', ...)` is exactly as long as the prefix, one underscore and the name |
| ActionHooks.AjaxHookNameParts | src/Hooks/ActionDecoratorHooks.php:106 | the hook name is the prefix, then one underscore, then the handler's name |
| ActionHooks.AjaxHookNameInjective | src/Hooks/ActionDecoratorHooks.php:106 | under one prefix, distinct handler names give distinct hook names |
| ActionHooks.AjaxRegistration | src/Hooks/ActionDecoratorHooks.php:98-110 | an ajax registration is an action on `<prefix>_<name>` at priority 11 with the method's parameter count and callback |
| ActionHooks.AjaxPair | src/Hooks/ActionDecoratorHooks.php:101-111 | one ajax match gives exactly two actions, `wp_ajax_<name>` then `wp_ajax_nopriv_<name>`, with the same callback, priority 11 and argument count |
| ActionHooks.AjaxRegistrationsShape | src/Hooks/ActionDecoratorHooks.php:96-112 | the ajax matches give two registrations each, in match order |
| ActionHooks.MethodRegistrationsOrder | src/Hooks/ActionDecoratorHooks.php:50-113 | one method registers one record per hook match, then one per command match, then two per ajax match, each group in document order |
| ActionHooks.RegistrationsLayout | src/Hooks/ActionDecoratorHooks.php:50-113 | the same layout for any conforming matches |
| ActionHooks.MethodRegistrations | src/Hooks/ActionDecoratorHooks.php:47-113 | one method registers one record per hook match, one per command match and two per ajax match |
| ActionHooks.DocHookRegistrations | src/Hooks/ActionDecoratorHooks.php:45-113 | no methods register nothing; one method registers exactly its own records |
| ActionHooks.DocHookRegistrationsAppend | src/Hooks/ActionDecoratorHooks.php:45-113 | the methods' registrations concatenate: those of `xs + ys` are those of `xs` followed by those of `ys` |
| ActionHooks.AddDocHooks | src/Hooks/ActionDecoratorHooks.php:38-115 | the log grows by exactly the registrations of every method, in reflection order |
| ActionHooks.RegisterMethod | src/Hooks/ActionDecoratorHooks.php:47-113 | the log grows by the method's hook, command and ajax registrations, in that order |
| ActionHooks.RegisterHooks | src/Hooks/ActionDecoratorHooks.php:57-71 | the log grows by one registration per hook match, in order |
| ActionHooks.RegisterCommands | src/Hooks/ActionDecoratorHooks.php:81-86 | the log grows by one command per command match, in order |
| ActionHooks.RegisterAjax | src/Hooks/ActionDecoratorHooks.php:96-112 | the log grows by the two actions of every ajax match, in order |
| ActionHooks.RegisterAjaxPrefixes | src/Hooks/ActionDecoratorHooks.php:101-111 | the inner loop appends the `wp_ajax` and then the `wp_ajax_nopriv` action |
| ApiHooks.EndpointRegistrations | src/Hooks/ApiDecoratorHooks.php:63-79 | nothing when the namespace or the version is `""` or `"0"`; otherwise one route per table entry, in order, under the prefix, with base and arguments unchanged |
| ApiHooks.ZeroSubspaceDropped | src/Hooks/ApiDecoratorHooks.php:68-72 | a subspace `"0"` is left out of the prefix, like the empty one |
| ApiHooks.PrefixExample | src/Hooks/ApiDecoratorHooks.php:69 | namespace `acme`, version `2` and subspace `widgets` give `acme/v2/widgets` |
| ApiHooks.DefaultVersionPrefix | src/Hooks/ApiDecoratorHooks.php:53 | a class that only sets its namespace registers under `<namespace>/v1` |
| ApiHooks.RoutePrefix | src/Hooks/ApiDecoratorHooks.php:68-72 | the prefix starts with `<namespace>/v<version>`; it ends there when the subspace is empty, and goes on with `/<subspace>` otherwise |
| ApiHooks.SetterFor | src/Hooks/ApiDecoratorHooks.php:191-193 | the setter found is the one whose key equals the annotation's key ignoring case; none when no setter key does |
| ApiHooks.SetterMethodExists | src/Hooks/ApiDecoratorHooks.php:191-193 | a setter is found for a key exactly when `method_exists` matches `'setApi' . ucfirst($key)` to that setter's name |
| ApiHooks.SetterNameLower | src/Hooks/ApiDecoratorHooks.php:191-193 | the setter name a key builds compares as `setapi` followed by the lower-case key |
| ApiHooks.ApplyApiFailsOnRoutes | src/Hooks/ApiDecoratorHooks.php:186-199 | the annotations stop with a `TypeError` exactly when one has the key `routes`, in any case |
| ApiHooks.LastAnnotationWins | src/Hooks/ApiDecoratorHooks.php:186-199 | without a `routes` key, each setting ends up with the value of the last annotation that names it |
| ApiHooks.UnnamedKeeps | src/Hooks/ApiDecoratorHooks.php:186-199 | a setting no annotation names keeps its value |
| ApiHooks.ApplyOne | src/Hooks/ApiDecoratorHooks.php:189-198 | one annotation fails exactly when its key names `setApiRoutes`, leaving the state as it was; otherwise it writes the setting its key names, no other, and never the routes |
| ApiHooks.ApplyApi | src/Hooks/ApiDecoratorHooks.php:186-199 | applying the annotations never changes the routes |
| ApiHooks.UnknownKeyIgnored | src/Hooks/ApiDecoratorHooks.php:193 | an annotation whose setter does not exist changes nothing |
| ApiHooks.FailureIsFinal | src/Hooks/ApiDecoratorHooks.php:186-199 | after the `TypeError`, later annotations have no effect |
| ApiHooks.ApiSettings.constructor | src/Hooks/ApiDecoratorHooks.php:38-53 | the settings start as namespace `""`, version `"1"`, subspace `""` and no routes |
| ApiHooks.ApiSettings.SetApiRoutes | src/Hooks/ApiDecoratorHooks.php:128-131 | replaces the routes and nothing else |
| ApiHooks.ApiSettings.SetApiVersion | src/Hooks/ApiDecoratorHooks.php:139-142 | replaces the version and nothing else |
| ApiHooks.ApiSettings.SetApiNamespace | src/Hooks/ApiDecoratorHooks.php:150-153 | replaces the namespace and nothing else |
| ApiHooks.ApiSettings.SetApiSubspace | src/Hooks/ApiDecoratorHooks.php:161-164 | replaces the subspace and nothing else |
| ApiHooks.ApiSettings.GetApiRoutes | src/Hooks/ApiDecoratorHooks.php:87-90 | returns the stored routes |
| ApiHooks.ApiSettings.GetApiNamespace | src/Hooks/ApiDecoratorHooks.php:97-100 | returns the stored namespace |
| ApiHooks.ApiSettings.GetApiVersion | src/Hooks/ApiDecoratorHooks.php:107-110 | returns the stored version |
| ApiHooks.ApiSettings.GetApiSubspace | src/Hooks/ApiDecoratorHooks.php:117-120 | returns the stored subspace |
| ApiHooks.ApiSettings.RegisterEndpoints | src/Hooks/ApiDecoratorHooks.php:60-80 | the log grows by exactly the endpoint registrations of the current settings |
| ApiHooks.ApiSettings.AddApiHooks | src/Hooks/ApiDecoratorHooks.php:171-201 | the settings become those the class comment's `@api-` lines give, and the result says whether a `TypeError` stopped the loop |
| ApiHooks.ApiSettings.ApplyAnnotations | src/Hooks/ApiDecoratorHooks.php:186-199 | the loop over the matches applies them in order and stops at the first `TypeError` |
| Singleton.Component.constructor | src/Singleton.php:72-74 | a component is created for its class |
| Singleton.CountPositive | src/Singleton.php:50 | a step that is in the trace is counted |
| Singleton.AtMostOnce | src/Singleton.php:50 | in a well-ordered trace each step of each class happens at most once, and exactly once when the trace holds it |
| Singleton.ConstructedOnce | src/Singleton.php:50-51 | every stored class was constructed exactly once |
| Singleton.AppendNewClass | src/Singleton.php:50-61 | the steps of a class's first call, appended to the trace, keep the trace well ordered and one of the stored classes |
| Singleton.ProtocolSteps | src/Singleton.php:50-61 | a first call constructs, then runs `addDocHooks` and `init` only when they exist, all for its own class |
| Singleton.Registry.constructor | src/Singleton.php:39 | `$instances` starts empty |
| Singleton.Registry.Construct | src/Singleton.php:50-56 | a new object is stored under its class before `addDocHooks` runs; the log grows by that class's doc-hook registrations |
| Singleton.Registry.Instance | src/Singleton.php:48-65 | returns the stored object of the class; a later call changes nothing at all; a first call constructs a fresh object, and its steps and registrations follow the ones before it; no other class's entry changes |
| Singleton.Registry.FirstCall | src/Singleton.php:50-61 | construction, `addDocHooks` and then `init` with the call's arguments, followed by whatever `init`'s own calls do |
| Singleton.Registry.RunInit | src/Singleton.php:59-61 | the `instance()` calls `init` makes keep every stored object and only extend the trace and the log |
| Singleton.ReentrantExample | src/Singleton.php:48-65 | an `init` that asks for its own instance again: one object, constructed once and initialised once with the first call's arguments, which the second call ignores |
| Singleton.ReentrantTrace | src/Singleton.php:50-61 | a class whose `init` ran second was constructed and initialised exactly once |
| DocHookFacts.HookAnnotationAt | src/Hooks/ActionDecoratorHooks.php:52 | a hook annotation anywhere in a comment, followed by white space or nothing, is read back at its offset |
| DocHookFacts.NoMarkerNoMatch | src/Hooks/ActionDecoratorHooks.php:51-95 | no pattern matches where `* @` is not |
| DocHookFacts.SingleMarker | src/Hooks/ActionDecoratorHooks.php:51-56 | a comment with one marker scans to at most the match at that marker |
| DocHookFacts.SingleMatch | src/Hooks/ActionDecoratorHooks.php:51-56 | when that marker matches, the scan is that match alone |
| DocHookFacts.NoMarkerNoRegistrations | src/Hooks/ActionDecoratorHooks.php:50-113 | a comment without any `* @` registers nothing |
| DocHookFacts.SingleHookScan | src/Hooks/ActionDecoratorHooks.php:51-57 | the single hook annotation of a comment is its whole hook scan |
| DocHookFacts.HookLineOnly | src/Hooks/ActionDecoratorHooks.php:75-95 | a hook annotation line is neither a command nor an ajax annotation |
| DocHookFacts.SingleHookAnnotation | src/Hooks/ActionDecoratorHooks.php:51-71 | a method whose comment holds one `* @<kind> <name>` line registers exactly that hook: priority 11 and its parameter count for a filter or action, 10 and PHP_INT_MAX for a shortcode |
| DocHookFacts.ApiHookMethodsRegistered | src/Hooks/ApiDecoratorHooks.php:55-60 | `registerEndpoints` (`@action rest_api_init`) and `addApiHooks` (`@action init`, line 169) are registered as actions on those hooks at priority 11 with 0 arguments |
| DocHookFacts.OnlyHookRegistration | src/Hooks/ActionDecoratorHooks.php:51-113 | a method with exactly one hook match and no command or ajax match registers that hook alone |
| DocHookFacts.HookMatchHoldsNoMarker | src/Hooks/ActionDecoratorHooks.php:52 | no `*` lies inside a hook match after its first character |
| DocHookFacts.HookOffsetInScan | src/Hooks/ActionDecoratorHooks.php:51-56 | wherever the hook pattern matches in a comment, that match is among those `preg_match_all` returns |
| DocHookFacts.HookOffsetsInOrder | src/Hooks/ActionDecoratorHooks.php:51-56 | of two hook matches, the earlier one comes first in `preg_match_all`'s result |
| DocHookFacts.EveryHookAnnotationRegisters | src/Hooks/ActionDecoratorHooks.php:51-71 | every hook match anywhere in a method's comment is registered |
| DocHookFacts.HookAnnotationsRegisterInOrder | src/Hooks/ActionDecoratorHooks.php:51-71 | two hook matches are registered in the order they appear in the comment |
| DocHookFacts.TwoHookMatches | src/Hooks/ActionDecoratorHooks.php:52 | two hook annotation lines separated by white space each read back at their own offset |
| DocHookFacts.TwoHookAnnotations | src/Hooks/ActionDecoratorHooks.php:51-71 | a comment with two hook annotation lines registers both, the first one first |
| DocHookFacts.AjaxWithoutName | src/Hooks/ActionDecoratorHooks.php:97 | `* @ajax ` with no name fails on the undeclared `StringUtil` as written and is named after the method in snake case as intended |

## Left out

- `src/View.php` and `src/Plugin.php` are not part of this model: template loading, output buffering and file-system paths are host and platform calls with no logic of their own.
- What WordPress and WP-CLI do with a registration: each host call is one record appended to a log.
- PHP reflection: a component's methods, parameter counts and doc comments, and the class doc comment, are given as data.
- General PCRE: only the four patterns of the traits are modelled, as hand-written matchers.
- Concurrency: `instance()` takes no lock; a PHP request is single-threaded.
- `__clone` and `__wakeup` (src/Singleton.php:81-92) have empty bodies and raise nothing, so cloning and unserialising are not modelled.
- The `Hookable` trait that `Singleton` uses is not part of this model.
- `Singleton.Registry.Instance`: `addDocHooks` cannot call back into `instance()` in this model; only `init`'s calls to `instance()` are modelled. The ghost trace records `DocHooksRan` and `InitRan` when the first call starts, before those steps' own effects.
- `Singleton.Registry.Instance`: `init` is observed only through the `instance()` calls it makes; `init`'s other effects are not modelled.
- `ApiHooks.ApiSettings`: a class that declares its own `setApi<Key>` methods is not modelled; only the four setters of the trait are looked up.
- `ApiHooks.Route`: the route arguments are an opaque string, passed through unchanged.
- `ActionHooks.Args`: only the two keys `priority` and `arg_count` exist; other keys of a caller's array cannot be expressed.
- `ActionHooks.IntVal`: defined on digit strings only, which are all the priority pattern lets through.
- `DocHookFacts.SingleHookAnnotation`: covers a comment with a single marker and an annotation without a priority. Comments with several annotations: `DocHookFacts.EveryHookAnnotationRegisters`, `DocHookFacts.HookAnnotationsRegisterInOrder`, `DocHookFacts.TwoHookAnnotations`.
- Parsing raises in two places:
  - an `@ajax` without a name calls the undeclared `StringUtil` (see Findings);
  - `@api-routes` hands a string to `setApiRoutes(array)`, a `TypeError` (`ApiHooks.ApplyApiFailsOnRoutes`).

## Findings

| source | as written | input that shows it | evidently intended | confidence | as-written member | corrected member |
|---|---|---|---|---|---|---|
| src/Hooks/ActionDecoratorHooks.php:97 | `StringUtil::toSnakeCase($method->getName())`, but no class `StringUtil` is declared or imported, so PHP looks up `GreatScottPlugins\WordPressPlugin\Hooks\StringUtil` in the trait's namespace and stops with "class not found" | a method whose doc comment has `* @ajax ` with no name | `Strings::toSnakeCase` from src/Util/Strings.php, giving `wp_ajax_<snake_case method name>` | not executed | ActionHooks.AjaxNameAsWritten | ActionHooks.AjaxName |
