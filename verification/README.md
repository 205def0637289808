# KairosDB front end and congestion control: a verified model

This project models the parts of the KairosDB repository that hold its hardest logic, and proves what
they are for.

* The AngularJS 1.4.5 engine that the roll-up page ships: its lexer and parser, its two expression
  back ends, the analysis that picks inputs to watch, the digest loop, the scope tree, the LRU cache,
  promises, and `$watchCollection`.
* From the polyfills: the insertion-ordered map with its cursors, `toFixed` on six decimal limbs, and
  `copyWithin`.
* The congestion controller, as threads around a monitor.
* The date picker's time printing and strict parsing, and the roll-up page's task translation.

Where the source changes state, the model is a class with those fields or a heap of objects with
those pointers, and each method is proved against a specification function; the theorems are about
the specification. One module per file:

* `Expressions`, `CodeGen`, `CodeGenCorrect`, `CodeGenText`, `BackEndsAgree`, `OperatorLaws`,
  `InputWatch`: values and trees, the interpreter, the generator and the code it emits, what both give,
  and the watched inputs.
* `Syntax`, `ParserInverse`, `GrammarLaws`, `ParserLoops`, `Lexing`, `LexerInverse`, `LexerLaws`,
  `LexerLoops`: grammar, printing, the token-shifting parser, and the lexer.
* `Digest`, `DigestLaws`, `ScopeTree`, `ScopeWalk`, `ScopeOps`, `ScopeHeap`, `WatchCollection`: dirty
  checking.
* `LruCache`, `LruRecency`, `LruHeap`, `OrderedMap`, `LooseKeys`, `MapHeap`, `Sequences`: caches and maps.
* `Promises`, `PromiseOutcomes`, `PromiseLaws`, `PromiseHeap`, `PromiseCycle`: `$q`.
* `Limbs`, `Decimals`, `ToFixed`, `Rounding`, `CopyWithin`: number formatting and array copying.
* `Congestion`, `TimeFormat`, `TimeRoundTrip`, `TimeMatching`, `RollupTasks`: the rest.

The modules whose names end in `Laws`, and `LruRecency` and `TimeMatching`, say what the operations give
in terms of literal values, characters and operators, without the functions the other modules share.

Some things the code does not do, each with an input that shows it and, where one is a matter of a
condition, the exact condition: the two expression back ends part on a discarded object literal, on
primitive locals, on a scope that is no object and on the sign of zero; a memoised watch misses an
input replaced by another with the same primitive value; a frozen key of the map can be taken for a
text; a `then` getter that resolves the promise it is looked up for unsettles it; a promise resolved
with itself through a thenable waits for ever; `$watchCollection` miscounts names that every object
inherits and then loses deletions; a capital M, S, L or C in a time format upsets the numbering of
groups; a 24-hour time with a marker comes back twelve hours late; a failed process reported twice
over-admits; notified threads that leave after a shutdown lose their wake-ups; and the bound of the
congestion controller is never assigned.

## Model

| member | source | states |
|---|---|---|
| `BackEndsAgree.MainFunctionCorrect` | webroot/rollup-js/third-party/angular-min-1.4.5.js:5408-5481 | for any program of read-only expressions, scope object, locals and input values, making and running the generated function gives the value of the interpreter back end, except in exactly two cases in which it throws: a statement before the last is an object literal with keys, which in statement position is a syntax error; or the locals are a truthy primitive and some name occurs in the program. What the values are is stated without the shared helpers by `OperatorLaws` |
| `OperatorLaws.BinaryGives` | webroot/rollup-js/third-party/angular-min-1.4.5.js:2757-2759 | in both back ends `x + y` is the other operand when one is undefined, `x - y` takes 0 for an undefined one, and every other operator is what the host makes of the two values |
| `OperatorLaws.UnaryGives` | webroot/rollup-js/third-party/angular-min-1.4.5.js:5485-5492 | in both back ends a sign makes 0 of undefined and is the host's otherwise, and `!` is true exactly of undefined, null, false, 0, NaN and the empty text |
| `OperatorLaws.ChoiceGives` | webroot/rollup-js/third-party/angular-min-1.4.5.js:5505-5515 | in both back ends the two logical operators and the conditional choose by that list of falsy values, written out |
| `OperatorLaws.NotReached` | webroot/rollup-js/third-party/angular-min-1.4.5.js:5505-5515 | what is not chosen is not evaluated: it need not have a value in common |
| `OperatorLaws.NameGives` | webroot/rollup-js/third-party/angular-min-1.4.5.js:5516-5530 | in both back ends a name is read from the locals if they have it and from the scope otherwise |
| `OperatorLaws.NameWithoutScope` | webroot/rollup-js/third-party/angular-min-1.4.5.js:5913-5925 | without a scope object the interpreter gives undefined for a name the locals do not have |
| `OperatorLaws.MemberGives` | webroot/rollup-js/third-party/angular-min-1.4.5.js:5531-5549 | in both back ends a member of null or undefined is undefined, and any other is read |
| `OperatorLaws.ComputedGives` | webroot/rollup-js/third-party/angular-min-1.4.5.js:5531-5549 | the same for a computed member |
| `OperatorLaws.ObjectGives` | webroot/rollup-js/third-party/angular-min-1.4.5.js:5600-5611 | in both back ends an object literal has each key with the value that stands last for it |
| `OperatorLaws.ListGives` | webroot/rollup-js/third-party/angular-min-1.4.5.js:5589-5599 | in both back ends an array literal has the values of its elements in their order |
| `OperatorLaws.ProgramGives` | webroot/rollup-js/third-party/angular-min-1.4.5.js:5475-5481 | the value of a program is that of its last statement, and undefined if it has none |
| `BackEndsAgree.AgreeIffWritten` | webroot/rollup-js/third-party/angular-min-1.4.5.js:5475-5481 | with falsy or object locals the back ends agree on a program if and only if no statement but the last is an object literal with keys |
| `BackEndsAgree.AgreeOnPrimitiveLocals` | webroot/rollup-js/third-party/angular-min-1.4.5.js:5619-5623 | with truthy primitive locals, on which the generated function looks for every name on entry, the back ends agree on a program if and only if the interpreter comes to a name, and throws too, or the program has neither a name nor such a literal |
| `BackEndsAgree.DiscardedLiteral` | webroot/rollup-js/third-party/angular-min-1.4.5.js:5475-5481 | the input `{a: 1}; 2` is 2 to the interpreter and a syntax error to the generator |
| `BackEndsAgree.EagerFlag` | webroot/rollup-js/third-party/angular-min-1.4.5.js:5619-5623 | the input `true` or-ed with a name, with a text for locals, is true to the interpreter and throws in generated code |
| `BackEndsAgree.ProgramReads` | webroot/rollup-js/third-party/angular-min-1.4.5.js:5475-5481 | the emitted text of a program reads back as its statements if and only if none of them but the last is an object literal with keys, and is a syntax error otherwise |
| `BackEndsAgree.InputFunctionCorrect` | webroot/rollup-js/third-party/angular-min-1.4.5.js:5427-5436 | the same for the functions generated for watched inputs, which see only the scope |
| `BackEndsAgree.AgreeExactly` | webroot/rollup-js/third-party/angular-min-1.4.5.js:5485-5530 | for a given host and scope the two back ends agree on every program without such statements, whatever testable locals and inputs, if and only if the scope is truthy and the signs keep the number 0: the generator applies the sign to a zero put in for `undefined`, the interpreter returns the zero |
| `BackEndsAgree.FalsyScopeDiffers` | webroot/rollup-js/third-party/angular-min-1.4.5.js:5505-5530 | without a scope object they differ: `1 && b` gives 1 in generated code and undefined in the interpreter |
| `BackEndsAgree.SignOfUndefined` | webroot/rollup-js/third-party/angular-min-1.4.5.js:5485-5492 | what each back end makes of a sign in front of `undefined` |
| `CodeGenCorrect.GenerateCorrect` | webroot/rollup-js/third-party/angular-min-1.4.5.js:5467-5615 | one expression, from any compiler state and for any target: the emitted statements change only temporaries of their own, leave the expression returned (and the target) with the interpreted value, and keep the has-local flags right |
| `CodeGenCorrect.GenerateConfined` | webroot/rollup-js/third-party/angular-min-1.4.5.js:5687-5691 | emitted code writes only temporaries numbered from the compiler state it started in, its target, and flags; the operand expression it returns reads only what stays put |
| `CodeGenCorrect.GenerateBefore` | webroot/rollup-js/third-party/angular-min-1.4.5.js:5619-5623 | identifiers only grow, and a cached has-local flag keeps its temporary |
| `CodeGenCorrect.ComputedCorrect` | webroot/rollup-js/third-party/angular-min-1.4.5.js:5531-5549 | a computed member reads its property only when the object is not null or undefined, in that order |
| `CodeGenCorrect.LogicalCorrect` | webroot/rollup-js/third-party/angular-min-1.4.5.js:5505-5510 | the two logical operators, through one shared temporary, short-circuit as the interpreter does |
| `CodeGenCorrect.WatchedCorrect` | webroot/rollup-js/third-party/angular-min-1.4.5.js:5470-5471 | a watched node takes the supplied input when inputs are given and is computed otherwise |
| `CodeGenText.ReadText` | webroot/rollup-js/third-party/angular-min-1.4.5.js:5635-5642 | the braces of the emitted text are unambiguous, those of object literals at the head of a statement included: in front of any text that does not go on with an `else`, it reads back as the statements it was written from |
| `CodeGenText.ReadKeyed` | webroot/rollup-js/third-party/angular-min-1.4.5.js:5475-5481 | an object literal with keys at the head of a statement is no statement, whatever follows |
| `CodeGenText.Compiler.Recurse` | webroot/rollup-js/third-party/angular-min-1.4.5.js:5467-5615 | the recursive walk, which pushes onto the body and bumps the identifier counter, spells exactly the code of the specification function |
| `CodeGenText.Compiler.CompileProgram` | webroot/rollup-js/third-party/angular-min-1.4.5.js:5439-5445 | the main stage builds the function that the theorem is about, statement by statement, pushing the text of every operand but the last with a semicolon |
| `InputWatch.InputsDetermine` | webroot/rollup-js/third-party/angular-min-1.4.5.js:2761-2855 | the nodes chosen for watching determine the value: with their values on one scope supplied, the annotated expression has its value on that scope whatever scope it is run on |
| `InputWatch.SomethingToWatch` | webroot/rollup-js/third-party/angular-min-1.4.5.js:2761-2855 | an expression without `this` that has nothing to watch is constant |
| `InputWatch.ConstantValue` | webroot/rollup-js/third-party/angular-min-1.4.5.js:2761-2855 | a node marked constant has the same value on every scope with every locals |
| `InputWatch.WatchedAre` | webroot/rollup-js/third-party/angular-min-1.4.5.js:2761-2855 | what is watched are names, member reads and choices that can vary, nothing that only computes with them |
| `InputWatch.SameInputExactly` | webroot/rollup-js/third-party/angular-min-1.4.5.js:2896-2905 | an input counts as unchanged exactly when it is the same value and has a primitive value, or is a twin: another value with the same primitive value, as `valueOf` gives it |
| `InputWatch.ComparedAs` | webroot/rollup-js/third-party/angular-min-1.4.5.js:2896-2905 | the comparison written out: null and undefined are only like themselves, an object counts as what its `valueOf` gives and never as unchanged when that is null or an object, anything else counts as itself |
| `InputWatch.InputsAre` | webroot/rollup-js/third-party/angular-min-1.4.5.js:2856-2862 | inputs are watched exactly for one statement that is neither a name, a member read nor a choice that can vary |
| `InputWatch.MemoEqualsFresh` | webroot/rollup-js/third-party/angular-min-1.4.5.js:2907-2927 | over every run in which no input is replaced by another with the same primitive value, whatever `valueOf` gives, each memoised call returns what evaluating from scratch returns, although only inputs from the first changed one on are stored again |
| `InputWatch.StoredExactly` | webroot/rollup-js/third-party/angular-min-1.4.5.js:2916-2925 | for every expression, what is stored after a call is up to date if and only if no twin comes before the first input that counts as changed |
| `InputWatch.TwinsExactly` | webroot/rollup-js/third-party/angular-min-1.4.5.js:2904-2927 | the condition is exact: for any array of names and member reads, `[x]` among them, the next call is right if and only if no input in front of the first changed one is a twin of the one stored |
| `InputWatch.NoInputsNeverEvaluated` | webroot/rollup-js/third-party/angular-min-1.4.5.js:2916-2925 | a delegate without inputs never evaluates its expression |
| `InputWatch.WatchIsFresh` | webroot/rollup-js/third-party/angular-min-1.4.5.js:2856-2862 | under the same condition, whichever delegate is installed (once, memoised, plain), a watch returns the current value |
| `InputWatch.WatchOnThis` | webroot/rollup-js/third-party/angular-min-1.4.5.js:5696-5729 | a watch on `this` stays undefined under the interpreter back end and is right under the generator |
| `InputWatch.CompiledWatch` | webroot/rollup-js/third-party/angular-min-1.4.5.js:5426-5436 | generated code called with the stored inputs returns the value on the scope they came from |
| `InputWatch.InputsDelegate.Watch` | webroot/rollup-js/third-party/angular-min-1.4.5.js:2907-2927 | the loop over the inputs, with its two arrays, does one call of the memoised specification |
| `Digest.ScansAgree` | webroot/rollup-js/third-party/angular-min-1.4.5.js:3379-3394 | one pass that stops at the last dirty watch ends in the same world and with the same dirtiness as a pass over every watcher |
| `Digest.DigestSettles` | webroot/rollup-js/third-party/angular-min-1.4.5.js:3371-3397 | on normal return every watcher equals its last value and the queue is empty; at most TTL + 1 passes are made, and all of them before the digest gives up |
| `Digest.DigestTwice` | webroot/rollup-js/third-party/angular-min-1.4.5.js:3371-3397 | digesting again right after a normal return calls no listener and changes nothing |
| `DigestLaws.DigestReplays` | webroot/rollup-js/third-party/angular-min-1.4.5.js:3371-3397 | told from its log: the final state is the first one with the logged listeners and tasks applied in order, tasks run in the order in which they were queued, and every listener was handed the value its watcher had at that moment and the value it was last told, or the same value twice the first time |
| `DigestLaws.PassInOrder` | webroot/rollup-js/third-party/angular-min-1.4.5.js:3372-3394 | one round runs tasks only, until none is queued, and then tells the watchers in their order, each at most once, and exactly those that changed |
| `DigestLaws.EndsWhenQuiet` | webroot/rollup-js/third-party/angular-min-1.4.5.js:3395-3397 | the loop ends with the first round in which nothing happens and nothing is queued, and throws when none of the allowed ones is such |
| `Digest.RootScope.Digest` | webroot/rollup-js/third-party/angular-min-1.4.5.js:3363-3397 | the digest with its short cut has the log of listener calls and tasks, the final state and the verdict of the loop that always looks at every watcher; what those calls are is stated by `DigestLaws` |
| `Digest.RootScope.Scan` | webroot/rollup-js/third-party/angular-min-1.4.5.js:3379-3394 | one pass over the watchers with the last dirty watch is the pass of the specification: the same listener calls with new and old value, the same last values, queue and state |
| `Digest.RootScope.DrainQueue` | webroot/rollup-js/third-party/angular-min-1.4.5.js:3372-3378 | the asynchronous queue is emptied first, tasks queued meanwhile included |
| `ScopeTree.PreOnce` | webroot/rollup-js/third-party/angular-min-1.4.5.js:3393-3394 | the depth-first order lists no scope twice |
| `ScopeTree.PreExactly` | webroot/rollup-js/third-party/angular-min-1.4.5.js:3393-3394 | it lists exactly the live scopes at and below its start |
| `ScopeTree.TotalIsLength` | webroot/rollup-js/third-party/angular-min-1.4.5.js:3248-3250 | the number a counter should hold is the number of watchers the walk comes by |
| `ScopeWalk.WalkStep` | webroot/rollup-js/third-party/angular-min-1.4.5.js:3393-3394 | from one scope the walk goes on to a live scope with strictly less left to do, and what pruning leaves out has no watchers |
| `ScopeWalk.PrunedWalkComplete` | webroot/rollup-js/third-party/angular-min-1.4.5.js:3379-3394 | the walk that skips subtrees with a zero counter comes by every watcher at and below its start, scope by scope in depth-first order, each once, and ends |
| `ScopeOps.SetWatchersTotal` | webroot/rollup-js/third-party/angular-min-1.4.5.js:3248-3250 | changing the watchers of a scope changes the counts of exactly that scope and those above it, by the difference |
| `ScopeOps.AddKeeps` | webroot/rollup-js/third-party/angular-min-1.4.5.js:3275-3284 | a new child keeps parents, sibling links and child ends consistent |
| `ScopeOps.DestroyKeeps` | webroot/rollup-js/third-party/angular-min-1.4.5.js:3402-3421 | cutting a scope out keeps them consistent, and nothing live leads to it or below it |
| `ScopeOps.DestroyTotal` | webroot/rollup-js/third-party/angular-min-1.4.5.js:3402-3421 | the scopes above lose exactly the watchers of the destroyed subtree |
| `ScopeHeap.AnyRunWalks` | webroot/rollup-js/third-party/angular-min-1.4.5.js:3275-3303 | after any run of creating, watching, unwatching and destroying, the pruned walk from any live scope sees exactly the watchers at and below it |
| `ScopeHeap.SeenAsAdded` | webroot/rollup-js/third-party/angular-min-1.4.5.js:3285-3299 | the walk looks at the watchers of a scope in the order in which they were put on it |
| `ScopeHeap.SeenWithout` | webroot/rollup-js/third-party/angular-min-1.4.5.js:3300-3303 | taking a watcher off leaves all others of the scope in their order, and all other scopes as they are |
| `ScopeHeap.RemovedIs` | webroot/rollup-js/third-party/angular-min-1.4.5.js:3402-3421 | removing a live scope ends exactly the scopes at and below it |
| `ScopeHeap.Scopes.AddCount` | webroot/rollup-js/third-party/angular-min-1.4.5.js:3248-3250 | the loop up the parents adds to the counters of the scope and of all above it, and to no other |
| `ScopeHeap.Scopes.New` | webroot/rollup-js/third-party/angular-min-1.4.5.js:3275-3284 | the pointers written by `$new` are those of the table with a new last child; all counters stay exact |
| `ScopeHeap.Scopes.Watch` | webroot/rollup-js/third-party/angular-min-1.4.5.js:3285-3303 | the watcher goes to the front of the list of a scope and every counter stays exact |
| `ScopeHeap.Scopes.Unwatch` | webroot/rollup-js/third-party/angular-min-1.4.5.js:3300-3303 | the watcher is taken out if it is there, once, and every counter stays exact |
| `ScopeHeap.Scopes.Destroy` | webroot/rollup-js/third-party/angular-min-1.4.5.js:3402-3421 | the counter correction and the pointer writes leave the table with the scope cut out and every live counter exact |
| `ScopeHeap.Scopes.Traverse` | webroot/rollup-js/third-party/angular-min-1.4.5.js:3379-3394 | the walk over the objects, with its climbing loop, sees the watchers of the full depth-first order, as many as the start's counter says |
| `OrderedMap.MapLaws` | webroot/js/polyfills.js:1 | set, delete and clear on the list of slots are those of a map |
| `OrderedMap.PlacesKept` | webroot/js/polyfills.js:1 | setting a key that is there changes its value only and keeps its place in the iteration, a new one goes to the end, deleting and clearing mark places |
| `OrderedMap.IterationSound` | webroot/js/polyfills.js:1 | any interleaving of set, delete, clear and next hands out slots in insertion order, each at most once |
| `OrderedMap.FinishedMeansAll` | webroot/js/polyfills.js:1 | when an iteration ends, every live entry has been handed out exactly once, whenever it was added |
| `OrderedMap.PassedIsPast` | webroot/js/polyfills.js:1 | what the cursor has passed is never handed out again |
| `OrderedMap.RemovedIsSkipped` | webroot/js/polyfills.js:1 | an entry deleted before it was reached is never handed out, even if its key is set again |
| `MapHeap.StrongMap.Advance` | webroot/js/polyfills.js:1 | from any entry, removed or not, going back along `p` to one that was not removed and then on along `n` gives the first live entry not yet passed |
| `LooseKeys.MeantExactly` | webroot/js/polyfills.js:1 | the entry found for a key is its own, or none if it has none, if and only if the key is not a frozen object that is loosely equal to some other live key before its own entry |
| `LooseKeys.FrozenTakenForText` | webroot/js/polyfills.js:1 | the input: with an entry for the text `[object Object]`, a frozen object without one finds that entry, and setting it overwrites it |
| `LooseKeys.RunAsAsked` | webroot/js/polyfills.js:1 | a run of operations does what was asked for, each to its own key, if and only if every key in it is told apart when it is used |
| `MapHeap.StrongMap.GetEntry` | webroot/js/polyfills.js:1 | lookup by index key, or along the list with the loose comparison, finds the live entry of the key meant, and of the key itself if and only if it is told apart |
| `MapHeap.StrongMap.Def` | webroot/js/polyfills.js:1 | the pointer writes of `def` assign in place or append at the end, for the key meant, which is the key itself if it is told apart |
| `MapHeap.StrongMap.Delete` | webroot/js/polyfills.js:1 | the pointer writes of `delete` remove the key meant, which is the key itself if it is told apart, and keep every cursor usable |
| `MapHeap.StrongMap.Clear` | webroot/js/polyfills.js:1 | the loop of `clear` marks every live entry and cuts it loose, so that every cursor falls back to the front |
| `MapHeap.Cursor.Next` | webroot/js/polyfills.js:1 | one call of an iterator hands out the entry of the specification |
| `MapHeap.Replay` | webroot/js/polyfills.js:1 | any interleaving on the heap hands out the entries at the places the specification visits for the keys meant, which are the keys given if every one is told apart |
| `LruCache.InclusionProperty` | webroot/rollup-js/third-party/angular-min-1.4.5.js:1207-1247 | over any trace of put, get and remove, the smaller of two caches holds a subsequence of the recency list of the larger one, with the same values, and lags by at most the difference of the capacities |
| `LruCache.HitsNest` | webroot/rollup-js/third-party/angular-min-1.4.5.js:1229-1235 | a hit in the smaller cache is the same hit in the larger one |
| `LruRecency.OrderIsRecency` | webroot/rollup-js/third-party/angular-min-1.4.5.js:1207-1247 | over any trace, key x stands before y in the list exactly when the last put of a value or hit of x comes earlier in the trace than that of y |
| `LruRecency.FirstIsStalest` | webroot/rollup-js/third-party/angular-min-1.4.5.js:1224-1226 | so the key that a put drops is the live key whose last use is the earliest |
| `LruRecency.ContentsAre` | webroot/rollup-js/third-party/angular-min-1.4.5.js:1207-1247 | what is there after a request: what was there, with the put value, and without the removed key or, if a put leaves too many, the stalest one |
| `LruRecency.GetStays` | webroot/rollup-js/third-party/angular-min-1.4.5.js:1229-1233 | after a hit the key is the freshest, and all others keep their order |
| `LruCache.PutStays` | webroot/rollup-js/third-party/angular-min-1.4.5.js:1218-1228 | the key just put is there and freshest |
| `LruCache.PutLoses` | webroot/rollup-js/third-party/angular-min-1.4.5.js:1218-1228 | a put loses a key exactly when a new key meets a full cache, and then the first of the list, which `LruRecency.FirstIsStalest` shows to be the one used longest ago |
| `LruHeap.UseList.Refresh` | webroot/rollup-js/third-party/angular-min-1.4.5.js:1207-1213 | the pointer writes move the entry to the fresh end of the doubly linked list, or add it there |
| `LruHeap.UseList.Unlink` | webroot/rollup-js/third-party/angular-min-1.4.5.js:1236-1246 | the pointer writes take the entry out of the list, at either end or between |
| `LruHeap.Cache.Get` | webroot/rollup-js/third-party/angular-min-1.4.5.js:1229-1235 | the hash, list and data of a bounded cache after `get` are those of the sequence-and-map specification: a hit moves its entry to the fresh end |
| `LruHeap.Cache.Put` | webroot/rollup-js/third-party/angular-min-1.4.5.js:1218-1228 | the same for `put` with its eviction; the size counter stays the number of entries |
| `LruHeap.Cache.Remove` | webroot/rollup-js/third-party/angular-min-1.4.5.js:1236-1246 | the same for `remove`, present or not |
| `LruHeap.Cache.RemoveAll` | webroot/rollup-js/third-party/angular-min-1.4.5.js:1247-1252 | the same for `removeAll` |
| `Promises.StepSane` | webroot/rollup-js/third-party/angular-min-1.4.5.js:3028-3113 | every step of promises, pairs of resolving functions, lookups of `then` and turns keeps the tables and the order of callback entries, and only the start of a turn brings further callbacks within reach, whatever the code does that runs while `then` is looked up or called |
| `Promises.AtMostOnceInOrder` | webroot/rollup-js/third-party/angular-min-1.4.5.js:3050-3066 | in every reachable state the callback entries have been dealt with in the order of the calls of `then`, each at most once (sections 2.2.2, 2.2.3 and 2.2.6 of Promises/A+) |
| `PromiseOutcomes.StepKeeps` | webroot/rollup-js/third-party/angular-min-1.4.5.js:3096-3113 | every step but the end of a clashing lookup keeps outcomes and the invariant: a promise is locked exactly while there is one unused pair for it, nobody is told an outcome before there is one, and whoever waits for a settled promise has a turn coming |
| `PromiseOutcomes.SettledForever` | webroot/rollup-js/third-party/angular-min-1.4.5.js:3096-3113 | in a run without a clash a promise that was fulfilled or rejected never changes status or value (sections 2.1.2 and 2.1.3) |
| `PromiseOutcomes.KeptExactly` | webroot/rollup-js/third-party/angular-min-1.4.5.js:3096-3107 | the condition is exact: a run has no clash if and only if no beginning of it can be continued, without a further clash, so that a settled outcome changes; a clash is a lookup of `then`, begun by `resolve`, at whose end the promise is no longer pending, but settled otherwise or locked, by the code of the lookup |
| `PromiseOutcomes.GetterUnsettles` | webroot/rollup-js/third-party/angular-min-1.4.5.js:3096-3107 | the input: a `then` getter that resolves the deferred it is looked up for; the fulfilled promise becomes locked, and its callback entry is dealt with although there is no outcome |
| `PromiseOutcomes.EachOnceInOrder` | webroot/rollup-js/third-party/angular-min-1.4.5.js:3050-3066 | in every state that a run without a clash reaches, the callback entries have been dealt with in the order of the calls of `then`, each at most once and with the final outcome, none before there is one, and all once no turn is running or due |
| `Promises.NotBeforeATurn` | webroot/rollup-js/third-party/angular-min-1.4.5.js:3050-3066 | until the next turn starts nothing is dealt with beyond what the running turn had taken |
| `Promises.ThenIsLater` | webroot/rollup-js/third-party/angular-min-1.4.5.js:3077-3086 | an entry registered now is dealt with only in a turn that starts later (section 2.2.4) |
| `PromiseOutcomes.CallPairKeeps` | webroot/rollup-js/third-party/angular-min-1.4.5.js:3029-3037 | the two functions handed to a thenable work once between them (section 2.3.3.3.3), and a lookup they begin cannot clash |
| `PromiseLaws.SettledAs` | webroot/rollup-js/third-party/angular-min-1.4.5.js:3096-3113 | `resolve` and `reject` with a value that has no `then` settle a pending promise with it, as fulfilled or rejected, and change nothing when the promise is not pending |
| `PromiseLaws.ResolvedWithPromise` | webroot/rollup-js/third-party/angular-min-1.4.5.js:3096-3104 | resolved with itself a promise is rejected; with another it is locked, and a new pair for it is registered there, the one function for fulfilment and the other for rejection |
| `PromiseLaws.CalledOrPassedOn` | webroot/rollup-js/third-party/angular-min-1.4.5.js:3050-3066 | for a fulfilled promise the first callback of an entry is entered and for a rejected one the second; where there is none, the outcome is passed on, a rejection as a rejection (sections 2.2.7.3 and 2.2.7.4 of Promises/A+) |
| `PromiseLaws.ReturnedOrThrown` | webroot/rollup-js/third-party/angular-min-1.4.5.js:3056-3063 | what a callback returns resolves the deferred of its entry, and what it throws rejects it |
| `PromiseLaws.OutcomeTaken` | webroot/rollup-js/third-party/angular-min-1.4.5.js:3098-3107 | a promise resolved with another takes over its outcome, status and value, when told |
| `PromiseLaws.TellerAnswered` | webroot/rollup-js/third-party/angular-min-1.4.5.js:3029-3037 | told by a pair that was used before, nothing is settled again; either way the deferred of the entry is fulfilled with undefined |
| `PromiseLaws.PairGives` | webroot/rollup-js/third-party/angular-min-1.4.5.js:3029-3037 | the function of a pair that is called first settles its promise, fulfilled or rejected after the function called; later calls do nothing |
| `PromiseLaws.LookupDecides` | webroot/rollup-js/third-party/angular-min-1.4.5.js:3098-3107 | what the lookup of `then` came to decides a pending promise: a function locks it, anything else fulfils it with the object, an exception rejects it |
| `PromiseLaws.TurnsInOrder` | webroot/rollup-js/third-party/angular-min-1.4.5.js:3050-3066 | turns start in the order in which they were asked for |
| `PromiseCycle.OnlyResolveNotices` | webroot/rollup-js/third-party/angular-min-1.4.5.js:3096-3104 | `resolve` rejects a promise given to itself; through the function handed to a thenable it is locked for ever instead, contrary to section 2.3.1 |
| `PromiseCycle.WaitsForEver` | webroot/rollup-js/third-party/angular-min-1.4.5.js:3098-3104 | a promise whose only pair is held by its own callbacks stays locked in every run without a clash in which nobody else uses that pair |
| `PromiseHeap.Q.Then` | webroot/rollup-js/third-party/angular-min-1.4.5.js:3077-3086 | the field updates of `then` are those of the specification |
| `PromiseHeap.Q.Resolve` | webroot/rollup-js/third-party/angular-min-1.4.5.js:3096-3100 | the field updates of `resolve`: status check, self-check, and then the decision, or for an object the beginning of the lookup of `then` |
| `PromiseHeap.Q.ResolveAny` | webroot/rollup-js/third-party/angular-min-1.4.5.js:3098-3107 | the field updates of `$$resolve` for values without a `then` to look up and for promises |
| `PromiseHeap.Q.DecideNow` | webroot/rollup-js/third-party/angular-min-1.4.5.js:3100-3107 | the field updates of `$$resolve` after the lookup, for a function, anything else and an exception, with no further look at the status |
| `PromiseHeap.Q.Do` | webroot/rollup-js/third-party/angular-min-1.4.5.js:3028-3113 | any call the user's code makes, and the ends of lookups and of calls of a `then`, are the steps of the specification |
| `PromiseHeap.Q.RunTurn` | webroot/rollup-js/third-party/angular-min-1.4.5.js:3050-3066 | every way the loop over the pending list can go is a run of the specification's steps, with whatever the callbacks do, whatever runs while `then` is looked up on what they return or on the outcome passed on, and whatever a `then` does with its pair |
| `GrammarLaws.Precedence` | webroot/rollup-js/third-party/angular-min-1.4.5.js:5243-5292 | for any three operands `a op b op2 c` is `a op (b op2 c)` exactly when op2 is in a later class of this list than op, and `(a op b) op2 c` otherwise: or; and; the four equalities; the four relations; plus and minus; times, division and remainder |
| `GrammarLaws.PrefixRead` | webroot/rollup-js/third-party/angular-min-1.4.5.js:5293-5300 | a prefix operator in front of an operand is an operand: it binds tighter than all infix ones |
| `GrammarLaws.GroupRead` | webroot/rollup-js/third-party/angular-min-1.4.5.js:5302-5304 | an operation in parentheses is an operand |
| `GrammarLaws.FormsRead` | webroot/rollup-js/third-party/angular-min-1.4.5.js:5223-5242 | conditional and assignment, with each other and by themselves, group to the right |
| `GrammarLaws.InfixInForms` | webroot/rollup-js/third-party/angular-min-1.4.5.js:5223-5242 | both bind less than every infix operator |
| `GrammarLaws.WordsRead` | webroot/rollup-js/third-party/angular-min-1.4.5.js:5302-5306 | a name is an identifier, but for true, false, null, undefined and this, and a constant is a literal |
| `GrammarLaws.MembersRead` | webroot/rollup-js/third-party/angular-min-1.4.5.js:5302-5322 | members and computed members go with the operand in front of them |
| `GrammarLaws.CallRead` | webroot/rollup-js/third-party/angular-min-1.4.5.js:5302-5337 | a call with any arguments in their order |
| `GrammarLaws.ArrayRead` | webroot/rollup-js/third-party/angular-min-1.4.5.js:5346-5356 | an array with any elements in their order, with a comma at the end or without |
| `GrammarLaws.ObjectRead` | webroot/rollup-js/third-party/angular-min-1.4.5.js:5357-5371 | an object with any keys and values in their order |
| `GrammarLaws.FiltersRead` | webroot/rollup-js/third-party/angular-min-1.4.5.js:5323-5330 | filters apply from left to right, with their arguments |
| `GrammarLaws.StatementsRead` | webroot/rollup-js/third-party/angular-min-1.4.5.js:5207-5212 | statements in their order, with any number of semicolons |
| `GrammarLaws.LeftoverIsError` | webroot/rollup-js/third-party/angular-min-1.4.5.js:5200-5206 | the first token that no form goes on with is the error |
| `GrammarLaws.UnclosedIsError` | webroot/rollup-js/third-party/angular-min-1.4.5.js:5374-5383 | a parenthesis closed by something else is the error, and one not closed the end of the expression |
| `GrammarLaws.CutOffIsError` | webroot/rollup-js/third-party/angular-min-1.4.5.js:5346-5383 | arrays and objects that the text ends in are the end of the expression, but behind a comma between properties the missing key |
| `GrammarLaws.BadKeyIsError` | webroot/rollup-js/third-party/angular-min-1.4.5.js:5357-5371 | a symbol for a key, or no colon behind one, is the error |
| `ParserInverse.Reads` | webroot/rollup-js/third-party/angular-min-1.4.5.js:5222-5305 | a tree printed for a grammar level, followed by anything that level does not take, is read back, and exactly its own tokens are taken |
| `ParserInverse.InfixReads` | webroot/rollup-js/third-party/angular-min-1.4.5.js:5243-5292 | operators of one level associate to the left |
| `ParserInverse.CondReads` | webroot/rollup-js/third-party/angular-min-1.4.5.js:5233-5242 | conditionals read back, test, branches and all |
| `ParserInverse.AssignReads` | webroot/rollup-js/third-party/angular-min-1.4.5.js:5223-5232 | assignments read back and associate to the right |
| `ParserInverse.ProgramReads` | webroot/rollup-js/third-party/angular-min-1.4.5.js:5200-5215 | the parser undoes the printer on whole programs, calls, members, filters, arrays and objects included, and consumes every token |
| `ParserInverse.AcceptedThenReprinted` | webroot/rollup-js/third-party/angular-min-1.4.5.js:5200-5215 | whatever token list the parser accepts, printing the result and parsing again gives the same program |
| `ParserLoops.Parser.Parse` | webroot/rollup-js/third-party/angular-min-1.4.5.js:5200-5206 | the parser that shifts tokens off one list gives the grammar's result or its error |
| `ParserLoops.Parser.ParseLevel` | webroot/rollup-js/third-party/angular-min-1.4.5.js:5243-5292 | the loops of the six operator levels give the tree or the error of the grammar, which `GrammarLaws.Precedence` states with the operators written out |
| `ParserLoops.Parser.ParsePrimary` | webroot/rollup-js/third-party/angular-min-1.4.5.js:5302-5322 | the loop over calls, computed members and members |
| `ParserLoops.Parser.ParseProperties` | webroot/rollup-js/third-party/angular-min-1.4.5.js:5357-5371 | the loop over object properties, trailing comma and errors included |
| `ParserLoops.Parser.ParseBody` | webroot/rollup-js/third-party/angular-min-1.4.5.js:5207-5212 | the loop over statements |
| `Lexing.LongestMatch` | webroot/rollup-js/third-party/angular-min-1.4.5.js:5105-5112 | of the operators a text begins with, the longest is taken |
| `LexerLaws.PiecesRead` | webroot/rollup-js/third-party/angular-min-1.4.5.js:5157-5176 | a string is read to its units, each written by itself, as a backslash, u and four hexadecimal digits, or as a backslash and another character, where n, f, r, t and v stand for 10, 12, 13, 9 and 11 and any other for itself |
| `LexerLaws.OnlyPiecesRead` | webroot/rollup-js/third-party/angular-min-1.4.5.js:5157-5176 | and whatever is read as a string was written in such pieces |
| `LexerLaws.UnclosedFails` | webroot/rollup-js/third-party/angular-min-1.4.5.js:5157-5176 | a string that is not closed is unterminated, behind a last backslash too |
| `LexerLaws.BadCodeFails` | webroot/rollup-js/third-party/angular-min-1.4.5.js:5162 | a backslash and u without four hexadecimal digits is the error of the escape |
| `LexerLaws.HexExactly` | webroot/rollup-js/third-party/angular-min-1.4.5.js:5162 | the hexadecimal digits, of either case, and their values |
| `LexerLaws.NameReads` | webroot/rollup-js/third-party/angular-min-1.4.5.js:5148-5156 | a letter, a dollar or an underscore, and the letters, dollars, underscores and digits behind it, are one name |
| `LexerLaws.SpelledSymbol` | webroot/rollup-js/third-party/angular-min-1.4.5.js:5097-5114 | every symbol is read from its characters, with nothing behind it that makes another token of it |
| `LexerLaws.WhiteSkipped` | webroot/rollup-js/third-party/angular-min-1.4.5.js:5120-5123 | blank, tab, line feed, carriage return, vertical tab and no-break space are skipped |
| `LexerLaws.OthersFail` | webroot/rollup-js/third-party/angular-min-1.4.5.js:5109-5112 | any other character is the error |
| `LexerLaws.NumberEitherCase` | webroot/rollup-js/third-party/angular-min-1.4.5.js:5131-5146 | a numeral may have its exponent letter in either case |
| `LexerInverse.RenderReads` | webroot/rollup-js/third-party/angular-min-1.4.5.js:5097-5114 | any list of tokens the lexer can make, written with spaces in between, lexes back to the same tokens |
| `LexerInverse.LexedThenRewritten` | webroot/rollup-js/third-party/angular-min-1.4.5.js:5097-5114 | whatever text the lexer accepts, writing its tokens out and lexing again gives the same tokens |
| `LexerInverse.StringReads` | webroot/rollup-js/third-party/angular-min-1.4.5.js:5677-5680 | a string of any code units written by `escape` reads back |
| `LexerInverse.NumberReads` | webroot/rollup-js/third-party/angular-min-1.4.5.js:5131-5146 | the number loop takes a whole numeral, exponents and signs included, and stops behind it |
| `LexerInverse.NumberIsNumber` | webroot/rollup-js/third-party/angular-min-1.4.5.js:5131-5146 | whatever the number loop accepts is a numeral |
| `LexerInverse.SourceReads` | webroot/rollup-js/third-party/angular-min-1.4.5.js:5200-5206 | a program printed with few parentheses and written out as text is read back by lexer and parser together |
| `LexerLoops.Lexer.Run` | webroot/rollup-js/third-party/angular-min-1.4.5.js:5097-5114 | the loop over the index gives the tokens or the error of the specification, and ends at the end of the text |
| `LexerLoops.Lexer.ReadString` | webroot/rollup-js/third-party/angular-min-1.4.5.js:5157-5186 | the loop with its escape flag gives the string or the error of the specification, which `LexerLaws` states with the escapes written out |
| `LexerLoops.Lexer.ReadNumber` | webroot/rollup-js/third-party/angular-min-1.4.5.js:5131-5146 | the loop over digits, dots and exponents |
| `Limbs.MultiplyAdd` | webroot/js/polyfills.js:36 | `l(t, n)` replaces the six-limb value v by t * v + n; nothing is lost below 10 to the 42nd and every sum stays below 2 to the 53rd |
| `Limbs.Divide` | webroot/js/polyfills.js:36 | `h(t)` replaces the value by its floor divided by t |
| `Decimals.FastPower` | webroot/js/polyfills.js:36 | `v` by repeated squaring is the power |
| `Decimals.DecimalReads` | webroot/js/polyfills.js:36 | decimal notation is the number's and has no zero in front |
| `Decimals.Print` | webroot/js/polyfills.js:36 | `p` writes the limbs as one decimal number |
| `ToFixed.Log2` | webroot/js/polyfills.js:36 | `d` is the exponent of two, by twelves and then by ones |
| `ToFixed.Significand` | webroot/js/polyfills.js:36 | scaling gives a significand below 2 to the 53rd, whole unless the number is below 2 to the -69th |
| `ToFixed.HalfUp` | webroot/js/polyfills.js:36 | doubling, rounding down, adding one and halving is rounding half up |
| `ToFixed.NearestIsClosest` | webroot/js/polyfills.js:36 | that is the whole number closest to the scaled value, the larger of two (section 20.1.3.3 of ECMAScript 2015) |
| `ToFixed.StandardMeans` | webroot/js/polyfills.js:36 | the standard's answer in its own terms: a minus sign for a negative number, and the digits of the whole number closest to the scaled one, the larger of two, with the last f behind a point |
| `ToFixed.SmallDigits` | webroot/js/polyfills.js:36 | the branch for numbers with a fractional part computes that number exactly |
| `ToFixed.LargeDigits` | webroot/js/polyfills.js:36 | the branch for whole numbers holds the number itself and appends zeros |
| `ToFixed.ToFixed` | webroot/js/polyfills.js:36 | the answer for every double and every argument: range error, NaN, host notation from 10 to the 21st on, and otherwise sign, digits and point as the standard says |
| `Rounding.QuotientKeepsFloor` | webroot/js/polyfills.js:36 | the one quotient that doubles cannot hold, by ten million: rounded in any way to a closest double it keeps its floor |
| `Rounding.SignificandHalves` | webroot/js/polyfills.js:36 | the numbers the loops start from meet the condition for that: whole, or a whole number of halves below 2 to the 52nd |
| `Congestion.CounterExact` | src/main/java/org/kairosdb/congestion/AdaptiveCongestionController.java:15-22 | over any run of any number of threads the counter is at most the bound and equals the outstanding trackers if and only if no tracker gave its process back twice |
| `Congestion.NoLostWakeUp` | src/main/java/org/kairosdb/congestion/AdaptiveCongestionController.java:37-55 | before a shutdown, whenever a thread waits, counter plus notified threads reach the bound: beside a free process some notified thread is on its way, with barging, interrupts and spurious wake-ups |
| `Congestion.DoubleFailureOverAdmits` | src/main/java/org/kairosdb/congestion/ProcessTimer.java:29-41 | reporting one failure twice lets two trackers out at a bound of one; a second `finished` does not, as its stopwatch throws |
| `Congestion.WakeUpsLost` | src/main/java/org/kairosdb/congestion/AdaptiveCongestionController.java:28-49 | over any run, shutdowns included, while a thread waits the free processes nobody is on the way to are at most the notified threads that left after a shutdown; none leaves before one |
| `Congestion.ShutdownLosesWakeUp` | src/main/java/org/kairosdb/congestion/AdaptiveCongestionController.java:28-32 | that many can be lost: a notified thread leaves without its process and another goes on waiting beside it |
| `Congestion.NothingAdmitted` | src/main/java/org/kairosdb/congestion/AdaptiveCongestionController.java:8-12 | the bound is never assigned: at zero no thread ever gets a tracker |
| `Congestion.AdmittedAfterShutdown` | src/main/java/org/kairosdb/congestion/AdaptiveCongestionController.java:28-55 | a shutdown turns nobody away who comes after it |
| `Congestion.FinishThenFail` | src/main/java/org/kairosdb/congestion/ProcessTimer.java:29-41 | a tracker that has finished can still fail, which gives its process back once more; finishing again gives nothing back |
| `Congestion.NotifyWakes` | src/main/java/org/kairosdb/congestion/AdaptiveCongestionController.java:17-21 | `notify` wakes exactly one waiting thread, if any, whichever it chooses |
| `Congestion.AdaptiveCongestionController.GetProcessTracker` | src/main/java/org/kairosdb/congestion/AdaptiveCongestionController.java:35-55 | the block up to the wait or the end is the step of the model |
| `Congestion.AdaptiveCongestionController.AfterWait` | src/main/java/org/kairosdb/congestion/AdaptiveCongestionController.java:43-54 | the block after the wait |
| `Congestion.AdaptiveCongestionController.FinishedProcess` | src/main/java/org/kairosdb/congestion/ProcessTimer.java:29-34 | a report of success |
| `Congestion.AdaptiveCongestionController.FailedProcess` | src/main/java/org/kairosdb/congestion/AdaptiveCongestionController.java:72-76 | a report of failure |
| `WatchCollection.SeeExactly` | webroot/rollup-js/third-party/angular-min-1.4.5.js:3338-3350 | from an exact copy of what was seen before, without inherited names: one call leaves an exact copy of what it sees if and only if that has no inherited names, and then the counter grows exactly at a shallow change (or for the number NaN itself) |
| `WatchCollection.AlwaysExact` | webroot/rollup-js/third-party/angular-min-1.4.5.js:3338-3350 | over any sequence of arrays, objects and other values, `undefined` in between, the copy is exact after every call if and only if no object among them has an inherited name, and then the counter grows exactly at the shallow changes |
| `WatchCollection.ItemsCounted` | webroot/rollup-js/third-party/angular-min-1.4.5.js:3343 | an array adds to the counter one for a copy of another kind, one for another length, and one for every element that is not what the copy has at its place, undefined behind its end |
| `WatchCollection.SeeFieldsExactly` | webroot/rollup-js/third-party/angular-min-1.4.5.js:3344-3347 | deletions are found by comparing two counts; from an exact copy without inherited names the next copy is exact if and only if the object has none |
| `WatchCollection.FirstCount` | webroot/rollup-js/third-party/angular-min-1.4.5.js:3344-3346 | the count of names of the first object is right exactly when no own name is one that every object inherits |
| `WatchCollection.DeletionNoticed` | webroot/rollup-js/third-party/angular-min-1.4.5.js:3346-3347 | after the first object the deletion of some of its names is noticed if and only if more names go than it has in common with those every object inherits, or one that stays is a name whose write stores nothing, with another value; otherwise nothing at all changes |
| `WatchCollection.ProtoNeverRests` | webroot/rollup-js/third-party/angular-min-1.4.5.js:3346 | an input: an own `__proto__` with a primitive value counts as a change in every call |
| `WatchCollection.DeletionMissed` | webroot/rollup-js/third-party/angular-min-1.4.5.js:3346-3347 | an input: with one such name, the deletion of another goes unnoticed and the copy keeps it |
| `WatchCollection.CollectionWatch.Observe` | webroot/rollup-js/third-party/angular-min-1.4.5.js:3338-3351 | the comparison function with its loops does one call of the specification |
| `WatchCollection.CollectionWatch.CompareItems` | webroot/rollup-js/third-party/angular-min-1.4.5.js:3343 | the branch for arrays |
| `WatchCollection.CollectionWatch.CompareFields` | webroot/rollup-js/third-party/angular-min-1.4.5.js:3344-3347 | the branch for objects |
| `CopyWithin.CopyWithin` | webroot/js/polyfills.js:1 | for every array, holes included, and every target, start and end, the loop leaves what copying from a snapshot would (section 22.1.3.3 of ECMAScript 2015) |
| `CopyWithin.NextIntact` | webroot/js/polyfills.js:1 | in the direction the code chooses, the element read next has not been overwritten |
| `CopyWithin.AskedIs` | webroot/js/polyfills.js:1 | that result is the source range of the old array inside the target range and the old array outside |
| `CopyWithin.ArgumentsAre` | webroot/js/polyfills.js:1 | the same in the arguments: negative positions count from the end, positions outside are moved to the nearest end, an end left out is the length, and no more is copied than fits |
| `TimeRoundTrip.PrintedParses` | webroot/js/date-time-picker.js:1188-1309 | for every format of HH, hh, mm, ss, l, c, TT and separators in any order, a printed time parses, and minute, second, millisecond and microsecond come back where the format has them |
| `TimeRoundTrip.HourExact` | webroot/js/date-time-picker.js:1267-1287 | exactly when the hour comes back: beside a marker a 24-hour field loses the hours after twelve, and a 12-hour field without a marker those before one and after twelve |
| `TimeRoundTrip.HourLate` | webroot/js/date-time-picker.js:1267-1287 | what comes back instead: twelve hours late, or the hour of a clock face |
| `TimeRoundTrip.OtherFieldsAre` | webroot/js/date-time-picker.js:1381-1418 | what the single letters and the small markers print: numbers without padding, the first letter, and small letters |
| `TimeMatching.MatchExactly` | webroot/js/date-time-picker.js:1228-1256 | a text matches the pattern of a format exactly when it can be cut up into parts that fit its pieces, written out: digits, a marker of either case or nothing, one character, optional white space; of all the ways it takes the one that gives the first part as much as possible, then the second, and so on |
| `TimeMatching.PrintedNeverFails` | webroot/js/date-time-picker.js:1228-1309 | for every format of any of the fields, single letters included, and of characters that stand for themselves, a printed time parses |
| `TimeMatching.HourTold` | webroot/js/date-time-picker.js:1267-1287 | a marker a or am makes twelve midnight, p or pm adds twelve hours to all but twelve, in either case, and without one nothing is done |
| `TimeRoundTrip.PrintedMatches` | webroot/js/date-time-picker.js:1228-1256 | a printed time matches the pattern of its format, each group taking its field's text |
| `TimeRoundTrip.NumberedAsParsed` | webroot/js/date-time-picker.js:1206-1250 | for every format without quotes, time zones, parentheses, brackets and backslashes, the fields that are numbered are those of the pattern, lowered, if and only if none of the capitals M, S, L and C occurs in it |
| `TimeRoundTrip.GroupsNumbered` | webroot/js/date-time-picker.js:1206-1226 | then every group of the pattern is numbered under its own letter |
| `TimeRoundTrip.NumberedSpelled` | webroot/js/date-time-picker.js:1206-1226 | in particular for the formats of these fields and separators |
| `TimeRoundTrip.CapitalsMisnumber` | webroot/js/date-time-picker.js:1206-1226 | an input outside that condition: in `MMss` the capital M is numbered but is no group, and seconds are read from a group that is not there |
| `TimeRoundTrip.KindTextIs` | webroot/js/date-time-picker.js:1381-1418 | what each field prints, padded |
| `TimeFormat.GetFormatPositions` | webroot/js/date-time-picker.js:1206-1226 | the loop finds the first group of each kind |
| `RollupTasks.SimpleComesBack` | webroot/rollup-js/rollupController.js:272-317 | saving a task of the page and loading it again gives it back exactly when it is as the page makes it |
| `RollupTasks.RealComesBack` | webroot/rollup-js/rollupController.js:272-374 | loading a stored task and saving it again leaves it exactly when it is in the form the page writes: one roll-up of one metric, the interval of an execution type, aggregators, at most one grouping, by tags without the separator; a first grouping without tags, or no list of aggregators, makes loading throw |
| `RollupTasks.FieldsLoaded` | webroot/rollup-js/rollupController.js:272-317 | where the fields of the page come from: the first roll-up, the first metric of its query and the first grouping of that, each only if it is there; more than one roll-up makes the task complex |
| `RollupTasks.LoadingThrows` | webroot/rollup-js/rollupController.js:297-317 | exactly when loading throws: the first metric has no list of aggregators, or its first grouping no tags |
| `RollupTasks.FieldsStored` | webroot/rollup-js/rollupController.js:323-374 | where the fields of the page go, and the start of one hour |
| `RollupTasks.TypesByUnit` | webroot/rollup-js/rollupController.js:376-412 | the execution types and their units, written out |
| `RollupTasks.SplitThenJoin` | webroot/rollup-js/rollupController.js:343-351 | joining undoes splitting for every text |
| `RollupTasks.JoinThenSplit` | webroot/rollup-js/rollupController.js:300-303 | splitting undoes joining exactly when there are names and none contains a comma and a space |
| `RollupTasks.IntervalBack` | webroot/rollup-js/rollupController.js:376-412 | the unit an execution type is stored as gives that type back |
| `RollupTasks.ToRealTask` | webroot/rollup-js/rollupController.js:353-358 | the aggregators are shared and their edit flags taken off |

## Left out

* Expressions: function and filter calls, assignment and the members it creates, the `ensureSafe`
  checks, negative zero, and the arithmetic and comparisons of the host, which are parameters shared by
  both back ends. Arrays and objects are compared by content; their identity is not modelled.
* Generated code is a list of statements written as chunks, in which every brace that can begin or end
  a statement is a chunk, not as characters. What the analysis writes onto tree nodes is a function of
  the node here, and a watched node carries its number.
* BackEndsAgree.MainFunctionCorrect: an object literal that has the key `__proto__` twice is left out,
  as generated code with it is a syntax error in every position; a host from before ECMAScript 2015
  refuses any key given twice.
* InputWatch.MemoEqualsFresh: objects are their contents here, and functions are no values. An object
  that counts as unchanged is not stored again, so that when the one stored first is changed in place
  afterwards, what is stored or was returned changes with it; changes in place are not modelled.
* Digest.RootScope.Digest: watchers are fixed while it runs and watch functions do not change state; the
  post-digest queue, `$applyAsync`, the log of changes and the in-progress check are not modelled.
* Scopes: prototype inheritance, the isolate flag, listener counts and broadcasts, and a second `$destroy`.
* ScopeHeap.Scopes.Watch: on a destroyed scope, and on those that inherit from it, the source's `$watch`
  does nothing; here the watcher is kept with the scope, where no live counter and no walk meets it.
* ScopeHeap.Scopes.Destroy: only for a scope that is live; below a destroyed scope counters are not kept.
* `$cacheFactory` without a capacity (there `remove` of an absent key still lowers the size), `destroy`,
  `info`, and keys named like members of every object.
* LooseKeys.RunAsAsked: which keys have an index key is fixed for a run; an object that is frozen between
  two operations, and was not a key before, changes sides.
* The map's index keys themselves, its `size` property, and the three kinds of iterator results; `Set` is
  the same list with the value as key. The loose comparison is a parameter, so a frozen object that
  cannot be converted to a primitive, on which it throws, is left out.
* Promises: `notify` and progress callbacks, the exception handler, `finally`, `all` and `when`. A number
  stands for a reference to a promise; what runs while `then` is looked up or called on an object is any
  sequence of calls. A `then` property put on one of `$q`'s own promises is not modelled.
* PromiseHeap.Q.RunTurn: one turn runs at a time, as a task of a single-threaded host does.
* Parser and lexer messages and positions; the value of a number token is its text; assignment to
  something that cannot be assigned is rejected after parsing, which is not modelled.
* ToFixed.ToFixed: doubles are real numbers here. All sums are proved to stay where doubles are exact, and
  the one quotient that is not exact to keep its floor. The host's own notation for large numbers, and
  the receiver check, are left out.
* Congestion.NoLostWakeUp: fairness and memory visibility are not modelled, nor are the statistics; the
  `notifyAll` of `shutdown` throws, as it is called outside the monitor.
* WatchCollection.CollectionWatch.Observe: the order of names is a parameter. Objects with a
  `hasOwnProperty` of their own, or with none, as they have no prototype (the source throws on them), are
  left out, and so are own `__proto__` names with an object for a value, which becomes the copy's
  prototype, and the copy handed to the listener.
* TimeRoundTrip.NumberedAsParsed: formats with quoted text, time zones, or characters that open, close or
  escape groups in regular expressions; nor are other marker names, a suffix, or parsing by the
  browser's own dates modelled.
* Roll-up tasks: `$$hashKey` and other marks of the page, and `time_zone_input`, which copies `time_zone`.
