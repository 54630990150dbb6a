# pydevd call-signature tracing, in Dafny

This project models the call-signature bookkeeping of the PyCharm debugger
helper `pydevd_signature.py`. It has four parts:

- the `Signature` record: a file, a function name, and argument
  `(name, type)` pairs kept next to their `"name:type"` renderings;
- the `SignatureFactory`. It decides which files are traced, by a prefix test
  against the project roots from `PYCHARM_PROJECT_ROOTS`. It also names the
  function a frame runs, qualified by its class when the object graph shows
  exactly one owning class. That answer is cached per code object;
- the three XML payload builders: call signature, return signature and
  call-hierarchy edge;
- the tracing entry points. They build a signature, pass it through a cache
  manager, and queue a message only when the signature is not a repetition.

The files:

- `wrappers.dfy`: `Option`.
- `text.dfy`: Python's `join`, `split` and `startswith`, plus a substring
  count used to state what a payload contains.
- `signature.dfy`: the `Signature` class and its rendering.
- `factory.dfy`: `SignatureFactory`, the class-name cache and the scope test.
- `messages.dfy`: the payload builders and the lemmas that count the elements
  of each payload.
- `tracing.dfy`: the repetition filter and the `Debugger` entry points.

The runtime services are parameters:

- `os.path.normcase`, `pydevd_vars.makeValidXmlValue` and `trace.modname` are
  functions passed in;
- the referrer lookups of `gc`/`inspect` are a `Referrers` value. It maps a
  code object to the functions that refer to it, a function to its
  dictionaries, and a dictionary to the names of its classes;
- the call cache manager's `is_first_call` is a function of the manager's
  contents.

A cache manager is the set of keys it holds, or `None` when the debugger has
none. The writer's queue is the sequence of commands written so far.

The payload lemmas assume one thing of the escape function: its output never
contains `<` (`Messages.EscapesMarkup`). Under that assumption they count
these tag starts:

- `<call_signature ` and `<arg ` in the call-signature payload;
- `<return_signature ` and `<arg ` in the return payload;
- `<caller ` and `<callee ` in the hierarchy payload.

The general counting lemmas (`SignaturePayloadCount`, `ReturnPayloadCount`,
`HierarchyPayloadCount`) cover only the patterns their preconditions admit.
Those patterns rule out, among others, `<xml` and `<hierarchy_call`, so these
lemmas never count the outer wrapper elements.

## Model

| member | source | states |
|---|---|---|
| Signatures.Signature.constructor | python/helpers/pydev/pydevd_signature.py:12-16 | A new signature has the given file and name, and both argument lists are empty. |
| Signatures.Signature.AddArg | python/helpers/pydev/pydevd_signature.py:18-20 | Appends exactly one pair to `args` and its `name:type` text to `argsStr`. Earlier entries are unchanged and the lists stay parallel (`Valid`). |
| Signatures.Signature.ToString | python/helpers/pydev/pydevd_signature.py:22-23 | The text built from `argsStr` equals the rendering of the recorded pairs: `file name(n1:t1, ...)`. |
| Signatures.RenderNoArgs | python/helpers/pydev/pydevd_signature.py:22-23 | With no arguments the rendering is `file + " " + name + "()"`. |
| Signatures.RenderAddArg | python/helpers/pydev/pydevd_signature.py:18-23 | One more argument inserts its `name:type` before the final `)`, after `, ` unless it is the first. |
| Text.StartsWithMeans | python/helpers/pydev/pydevd_signature.py:35 | A string starts with a prefix exactly when it is that prefix followed by some rest. Every string starts with the empty string. |
| Text.JoinAppend | python/helpers/pydev/pydevd_signature.py:23 | Joining a list with one more piece appends the separator and the piece, or gives the piece alone when the list was empty. |
| Text.ConcatAppend | python/helpers/pydev/pydevd_signature.py:123 | `''.join` of two lists put together is the join of the first followed by the join of the second. |
| Text.JoinAround | python/helpers/pydev/pydevd_signature.py:115-123 | `''.join` of a head list, a body list and a final piece is the head's join, then the body's join, then the piece. |
| Text.JoinThree | python/helpers/pydev/pydevd_signature.py:137 | `''.join` of a three-piece list is the three pieces concatenated. |
| Text.Split | python/helpers/pydev/pydevd_signature.py:29 | Splitting never gives an empty list, and no piece contains the separator. |
| Text.JoinSplit | python/helpers/pydev/pydevd_signature.py:29 | Joining the split pieces with the separator gives back the original string. |
| Text.SplitJoin | python/helpers/pydev/pydevd_signature.py:29 | Splitting a join of separator-free pieces gives back the pieces. |
| Factory.SignatureFactory.constructor | python/helpers/pydev/pydevd_signature.py:27-29 | The class-name cache starts empty. The roots are the environment value (`""` when unset) split at `os.pathsep`, and they join back to that value. |
| Factory.UnsetRootsCoverEverything | python/helpers/pydev/pydevd_signature.py:29-36 | With the variable unset the roots are `[""]`. Every file name is then in scope, provided `normcase` maps the empty string to itself (a precondition of the lemma). |
| Factory.NoRootsNoScope | python/helpers/pydev/pydevd_signature.py:31-37 | Nothing is in scope for an empty root list. |
| Factory.SignatureFactory.IsInScope | python/helpers/pydev/pydevd_signature.py:31-37 | The loop with its early return answers true exactly when some normalised root is a prefix of the normalised file name. |
| Factory.ResolveClass | python/helpers/pydev/pydevd_signature.py:81-106 | No class is found unless exactly one function refers to the code object. With one function, a class is found exactly when that function has a single class candidate, and the class found is that candidate. |
| Factory.QualifiedName | python/helpers/pydev/pydevd_signature.py:109-110 | With a class the name is the class name, `.`, then `co_name`. Without one it is the bare `co_name`. It is longer than `co_name` exactly when a class was resolved. |
| Factory.Remember | python/helpers/pydev/pydevd_signature.py:75-106 | After a lookup the key is cached. Existing entries are kept unchanged. A new entry holds the resolved class, or `None`. |
| Factory.CacheEntriesAreStable | python/helpers/pydev/pydevd_signature.py:75-106 | Over any series of lookups, even with the object graph changing, an entry once cached is never changed. The cache holds exactly the code objects looked up. |
| Factory.SignatureFactory.FileModuleFunctionOf | python/helpers/pydev/pydevd_signature.py:65-112 | Returns the file name and the module name (none for an empty file name). The function name is qualified by the cached class. The cache becomes `Remember` of the old cache: the entry is first set to `None` and overwritten only when exactly one class is found. |
| Factory.SignatureOf | python/helpers/pydev/pydevd_signature.py:45-58 | The signature of a frame has the frame's file and arguments. Its name is the cached class name, `.`, then `co_name` when a class is cached, and the bare `co_name` otherwise. |
| Factory.SignatureFactory.CreateSignature | python/helpers/pydev/pydevd_signature.py:41-59 | Returns a fresh, valid signature built by one `add_arg` per argument, in order. It equals `SignatureOf` the frame after the cache update. |
| Messages.CreateSignatureMessage | python/helpers/pydev/pydevd_signature.py:114-125 | The appended pieces, joined, give the call-signature command with sequence 0. Its text is the `<xml>` header, then one `arg` element per argument in order, then the close. |
| Messages.SignatureArgCount | python/helpers/pydev/pydevd_signature.py:114-125 | The call-signature payload holds exactly one `<arg ` element per argument and a single `<call_signature ` element. |
| Messages.SignaturePayloadCount | python/helpers/pydev/pydevd_signature.py:117-122 | Counts the occurrences in the payload of any pattern meeting `SignaturePattern`. Such a pattern starts with `<` but not `</`, has no `>`, is at most 22 characters, does not start `<x`, and is at most 11 characters when it starts `<a`. The count is one if the pattern starts the `call_signature` tag, plus one per argument if it starts the `arg` tag. |
| Messages.CreateReturnSignatureMessage | python/helpers/pydev/pydevd_signature.py:128-139 | The three pieces, joined, give the return-signature command with sequence 0. |
| Messages.ReturnPayloadCount | python/helpers/pydev/pydevd_signature.py:129-137 | Counts the occurrences in the return payload of a pattern that starts with `<` but not `</`, has no `>`, is at most 24 characters and does not start `<x`. The count is one if the pattern starts the `return_signature` tag, and zero otherwise. |
| Messages.ReturnPayloadShape | python/helpers/pydev/pydevd_signature.py:128-139 | The return payload holds a single `<return_signature ` element and no `<arg ` element. |
| Messages.CreateHierarchyCallMessage | python/helpers/pydev/pydevd_signature.py:142-157 | The three pieces, joined, give the hierarchy command with sequence 0. |
| Messages.HierarchyPayloadCount | python/helpers/pydev/pydevd_signature.py:143-155 | Counts the occurrences in the hierarchy payload of a pattern that starts with `<` but not `</`, has no `>`, is at most 14 characters and does not start `<x` or `<h`. The count is one for each of the `caller` and `callee` tags the pattern starts. |
| Messages.HierarchyPayloadShape | python/helpers/pydev/pydevd_signature.py:142-157 | The hierarchy payload holds one `<caller ` element and one `<callee ` element. |
| Tracing.Filter | python/helpers/pydev/pydevd_signature.py:163-168 | A message is written exactly when there is no cache manager or the key is new. With a manager, the key is in the cache afterwards. |
| Tracing.RunWithoutCache | python/helpers/pydev/pydevd_signature.py:167-168 | Without a cache manager, every signature of a series is written, in order. |
| Tracing.RunWithCache | python/helpers/pydev/pydevd_signature.py:163-166 | With a cache manager, the keys written are exactly those not already cached, each written once. The cache ends up holding every key seen. |
| Tracing.Debugger.SendSignatureCallTrace | python/helpers/pydev/pydevd_signature.py:160-168 | The project roots never change. Scope is judged on the state before the call. With no factory or an out-of-scope file, nothing changes. Otherwise the class-name cache is updated. The signature passes through `Filter` on the call cache as it was, and its message is appended exactly when `Filter` admits it. |
| Tracing.Debugger.WriteCallSignature | python/helpers/pydev/pydevd_signature.py:163-168 | The call cache and the queue become what `Filter` gives for the signature on the old cache: the message is appended exactly when it admits the signature. |
| Tracing.Debugger.IsFirstCall | python/helpers/pydev/pydevd_signature.py:171-177 | The project roots never change. The answer is true only when the return manager, the factory with the file in scope before the call, and the call manager are all present. In that case it is the call manager's `is_first_call` on the frame's signature. Otherwise it is false and nothing changes. |
| Tracing.Debugger.SendSignatureReturnTrace | python/helpers/pydev/pydevd_signature.py:180-186 | The project roots never change. Scope and the return manager are judged on the state before the call. Without a factory, scope or return manager, nothing changes. Otherwise the pair (signature, return type) passes through `Filter`, and the return message is appended exactly when the pair is new. |
| Tracing.Debugger.WriteReturnSignature | python/helpers/pydev/pydevd_signature.py:184-186 | Called only with a return manager present. The return cache and the queue become what `Filter` gives for the (signature, return type) pair on the old cache: the return message is appended exactly when it admits the pair. |
| Tracing.Debugger.SendHierarchyCallTrace | python/helpers/pydev/pydevd_signature.py:189-193 | Appends the hierarchy message for the record the manager returns, exactly when the factory, scope and manager tests pass and there is a record. |

## Left out

- Frame introspection in `create_signature`: reading `f_code`, `f_locals` and `type()`, the `instance` and `__module__` qualification of class names, and the bare `except` that prints a traceback. The frame is given as its code object plus the list of `(name, class name)` pairs it yields.
- The `gc.get_referrers`, `inspect.isfunction`/`isclass` and `hasattr(c, "__bases__")` filters: they are runtime reflection. The `Referrers` value gives their filtered results.
- `trace.modname`, `os.path.normcase`, `os.getenv`, `os.pathsep` and `get_type_of_value`: library calls. The model takes them as function parameters or as inputs (`returnInfo` is the result of `get_type_of_value`).
- Code objects: compared by value, with an identity number to tell apart equal-looking ones. Python's hashing of code objects is not modelled.
- `pydevd_comm` is not part of this model. The command ids are an enumeration, not their numeric values. `NetCommand` is a record, and `dbg.writer.addCommand` appends to a sequence; the network output is not modelled.
- The cache-manager classes are not part of this model. `is_repetition`/`add` are membership and insertion on a set of signature values, `is_first_call` is a function parameter, and the hierarchy manager's `add` result is a parameter of `SendHierarchyCallTrace`.
- Messages.SignatureArgCount: the `<arg ` count relies on `makeValidXmlValue` never producing `<` (`EscapesMarkup`), which its definition in `pydevd_vars` is expected to ensure; `pydevd_vars` is not part of this model.
- Messages.ReturnPayloadShape: relies on the same assumption about the escape function.
- Messages.HierarchyPayloadShape: relies on the same assumption about the escape function.
- Tracing.Debugger.SendSignatureCallTrace: adding to the cache before writing is not distinguishable in the final state, so only the final state is stated.
- The Java sources in the repository (`ProgressIndicatorUtils.java`, `BaseSvnClient.java`, `PythonCallHierarchyTest.java`, `DeploymentConfiguration.java`) are out of scope. They are concurrency plumbing, thin wrappers over external tools, an integration test and abstract declarations.
