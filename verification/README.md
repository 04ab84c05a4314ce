# Verification of the SECONDO kernel

SECONDO is an extensible database system. This project models four of its parts in Dafny and proves
what they are for:

- **The query compiler and evaluator.** A query is a nested list. `Annotate` checks its types and
  numbers its constants and functions, `Subtree` turns it into an operator tree, and `Eval` runs the
  tree over mutable argument vectors, one for each function number. The main theorem says that this
  machinery means what lexical scoping and evaluation in an environment mean
  (`Compilation.CompilationPreservesMeaning`). What is accepted beyond that, and what of it is built, is
  delimited exactly (`Compilation.StrictExactly`, `Compilation.BuiltResolves`). The stream protocol (OPEN,
  REQUEST, CLOSE with cached arguments and parameter functions) is proved to deliver the lists that streams
  stand for, and the trees of stream queries to be such streams (`StreamQueries.StreamQueryMeaning`). Beside
  it stands the distribution of memory over operators.
- **The transactional catalog.** Two overlays of pending changes lie over keyed files, are flushed in
  two passes at commit and dropped at abort. Over whole runs the catalog is a pair of plain maps with a
  snapshot to return to (`CatalogCorrect.RunRefines`).
- **The local socket.** A ring buffer in shared memory with wait flags and events, modelled as
  interleaved atomic steps, and the stream buffers at its ends. Order, the absence of overwriting and
  the arrival of wake-ups hold in every interleaving of one direction. With both directions in use the
  order still holds, but a wake-up can be lost: exactly when, from which states, and what rule for callers
  excludes it is proved in `LocalDuplex`. `RingStream` puts the stream buffers on the ring: in every
  interleaving a get that waits in the middle goes on and completes.
- **Splitting and locking.** Dividing a shapefile with its dBASE file, images and file pieces over the
  nodes of a cluster without loss, and the registrar's command loop.

## How the model is organised

`QuerySyntax`, `Annotation`, `OperatorTree` hold the compiler as functions on explicit state; `Meaning`
is the independent reading of a query; `AnnotationCorrect` and `EvaluationCorrect` connect the two;
`Acceptance` adds what becomes of errors and undefined objects, `Building` what tree building adds to the
test of the root type; `Compilation` and `ArgumentVectors` state the results; `IllTypedQueries` and
`NameCapture` have the queries that show where their conditions are needed; `StreamQueries` joins the
compiler and the stream protocol. Reading and compilation look up candidates, types of parameters and
evaluation functions by the same functions: what those amount to in the catalog's own terms is in
`OperatorLaws`, `ParameterLaws` and `WrapperLaws`. `QueryProcessor.dfy` (module `QueryProcessing`) has the
compiler in the source's own form, a class whose methods fill tables and arrays, each proved to compute the
corresponding function. The other parts follow the same plan: a state and its steps, the
theorems about all runs, and classes whose methods are proved against the steps.

Operators of algebras are opaque: a type mapping, a selection function and, for each evaluation function, a
strategy that from its arguments and the answers it has received either finishes or requests an argument or
an element of an argument list, with parameters if that is a function. A query's operators may make at most
`limit` requests each, for every `limit`. Which operators feed, filter, take, concatenate, consume and
compare is a parameter of the stream results (`StreamQueries.Algebras`). Berkeley DB is an abstract keyed
store that restores its files on abort and appends value records under unused, non-zero ids. The order in
which maps and files are visited is a parameter. Shared memory is sequentially consistent, and the ring has
any size from 2 on (8176 in `ClientServer/Win32Socket.h:114,177-184`).

Assumptions taken over from the program: bound names of a query are distinct, none is the name of an object,
and no variable is used outside its abstraction (`Meaning.WellScoped`). Under lexical scoping a bound name
hides an object; the pass looks for objects first. `NameCapture.CapturedName` and
`NameCapture.StaleVariable` show what happens otherwise. A transaction is begun outside of one and ended
inside; `ModifyObject` is not called for an object deleted in the same transaction; numbers of nodes and of
pieces are positive.

Where code and documentation differ the code is followed: `Construct` tests the type of the whole query only
(`QueryProcessor/QueryProcessor.cpp:3784-3839`), so that an ill-typed part passes the test if an operator
accepts it as an argument. If that part is an application the process ends while the tree is built, because
no type constructor makes its result object (`IllTypedQueries.NestedErrorNotBuilt`); a counter with a number
out of range, the symbol `typeerror` and a result type with an error inside are built
(`CounterOutOfRangeBuilt`, `ErrorSymbolBuilt`, `HiddenErrorBuilt`), and an ill-typed constant is built and
evaluated as the first constant of the query (`IllTypedConstantAnswered`). `Write` clears the wait flag of
the other direction's buffer after a wait (`ClientServer/Win32Socket.cpp:909`); the length in the header of
a shapefile piece is meant to be corrected, but in a file of another name
(`ClientServer/SecondoInterfaceREPLAY.cpp:2055-2069`); `Unlock` does not ask who locked; the counter range
includes 16; type deletion also refuses because of a stored object that this transaction has deleted.

## Model

| member | source | states |
|---|---|---|
| QueryProcessing.VariableTables.EnterVariable | QueryProcessor/QueryProcessor.cpp:428-451 | a new variable is found under its name with its position, function number and type; all others stay |
| QueryProcessing.VariableTables.GetVariable | QueryProcessor/QueryProcessor.cpp:405-425 | the entry last entered under the name |
| QueryProcessing.QueryProcessor.TestOverloadedOperators | QueryProcessor/QueryProcessor.cpp:2720-2860 | the loop over candidates finds the first one that accepts the arguments; its selection function gives the number of the evaluation function, a negative one makes it a type error; if none accepts, the last candidate is left with number 0 |
| QuerySyntax.FirstAccepting | QueryProcessor/QueryProcessor.cpp:2720-2860 | the candidate found accepts and all before it reject; if none is found every candidate rejects |
| OperatorLaws.FirstTaken | QueryProcessor/QueryProcessor.cpp:2737-2807 | the candidate chosen is the first that exists, is not excluded and whose type mapping answers something other than `typeerror` |
| ParameterLaws.ParameterTypes | QueryProcessor/QueryProcessor.cpp:2948-3026 | each parameter of an annotated function has the type written out, or the type that its symbol names, or what the first candidate of the type operator of that name answers on the argument types before the function, or the symbol as a type; it is a correct type or a stream of one |
| ParameterLaws.IdentityTyped | QueryProcessor/QueryProcessor.cpp:2948-3026 | the identity on a parameter declared with a symbol is annotated with exactly that type, for the parameter and its variable, if there is a correct one, and otherwise is an error |
| QueryProcessing.QueryProcessor.EnterParameters | QueryProcessor/QueryProcessor.cpp:2950-3040 | the parameters of a function enter the table under its number, or an unfit one stops the definition |
| QueryProcessing.QueryProcessor.AnnotateSymbol | QueryProcessor/QueryProcessor.cpp:2006-2177 | objects, operators, variables, keywords and identifiers are told apart in the source's order; function objects are annotated with fresh tables |
| QueryProcessing.QueryProcessor.AnnotateFunction | QueryProcessor/QueryProcessor.cpp:2868-3072 | the function number is taken before the body is annotated |
| QueryProcessing.QueryProcessor.AnnotateElements | QueryProcessor/QueryProcessor.cpp:2271-2330 | the elements of a list from left to right, with the types seen so far |
| QueryProcessing.QueryProcessor.AppendArguments | QueryProcessor/QueryProcessor.cpp:2418-2434 | constants that a type mapping asks for are entered into the array of values and annotated, in order |
| QueryProcessing.QueryProcessor.ApplyOperator | QueryProcessor/QueryProcessor.cpp:2377-2453 | an application carries the first accepting candidate, its evaluation function, the appended constants and the result type, or a type error |
| QueryProcessing.QueryProcessor.Apply | QueryProcessor/QueryProcessor.cpp:2359-2695 | an annotated list is an application, a wrapper, an argument list or an error, as its first element decides |
| QueryProcessing.QueryProcessor.Annotate | QueryProcessor/QueryProcessor.cpp:1406-2695 | the pass over tables, array of constants and function counter computes the annotation |
| QueryProcessing.QueryProcessor.AnnotateX | QueryProcessor/QueryProcessor.cpp:1372-1404 | annotation starts with empty tables and counters at 0 and reports undefined objects and exceptions |
| AnnotationCorrect.AnnotateCorrect | QueryProcessor/QueryProcessor.cpp:1406-2695 | the annotation has no type error anywhere exactly when the expression resolves lexically; then the two agree in every node, abstractions are numbered consecutively, and variables carry their binder's number and position |
| Compilation.ResolutionAgrees | QueryProcessor/QueryProcessor.cpp:1372-1404 | so for a whole query: no error anywhere exactly when it resolves, the same type, agreement node by node, abstractions numbered 1, 2, ... up to functionno |
| Acceptance.ErrorsReachRoot | QueryProcessor/QueryProcessor.cpp:3784-3839 | if no operator accepts an argument with a type error, an error anywhere in a query shows in the type of the whole query, which is all that is tested |
| Compilation.WellTypedResolves | QueryProcessor/QueryProcessor.cpp:3784-3839 | then every well-scoped query that passes the test of its type resolves |
| Compilation.ErrorOverlooked | QueryProcessor/QueryProcessor.cpp:3784-3839 | an operator applied to an argument with a type error never resolves, and passes the test exactly when the operator's type mapping accepts the arguments |
| Compilation.StrictExactly | QueryProcessor/QueryProcessor.cpp:3784-3839 | where type mappings look at types only, the queries that pass the test are those that resolve if and only if no operator accepts an argument with a type error |
| IllTypedQueries.NestedErrorAccepted | QueryProcessor/QueryProcessor.cpp:3784-3839 | with an operator that accepts anything and one that accepts nothing, the query (f (g)) passes the tests although it does not resolve |
| Acceptance.ErrorIsAtom | QueryProcessor/QueryProcessor.cpp:3815-3839 | a type has an error exactly when `typeerror` is one of the symbols extracted from it |
| Acceptance.DefinedSeen | QueryProcessor/QueryProcessor.cpp:2026-2029 | annotating a query that resolves clears the flag exactly when some object mentioned in it, or in a stored function it mentions, has no value |
| Compilation.UndefinedObject | QueryProcessor/QueryProcessor.cpp:3841-3846 | an undefined object resolves and is well typed, but is not accepted |
| Compilation.ScopingByNumbers | QueryProcessor/QueryProcessor.cpp:2912-2941 | the abstractions of a query that resolves have exactly the numbers 1 to functionno; each variable has the number, a position and the type of a parameter of an enclosing abstraction, the one that binds its name lexically |
| NameCapture.StaleVariable | QueryProcessor/QueryProcessor.cpp:1798-1813 | a symbol used outside the abstraction that binds it is still taken for the variable, unlike under lexical scoping |
| NameCapture.CapturedName | QueryProcessor/QueryProcessor.cpp:2006-2104 | the identity function with a parameter named like a stored object, applied to any constant, answers the object, where lexical scoping has the constant |
| NameCapture.UncapturedName | QueryProcessor/QueryProcessor.cpp:2106-2119 | with a name of its own it answers the constant |
| QueryProcessing.QueryProcessor.Subtree | QueryProcessor/QueryProcessor.cpp:3171-3610 | the tree of an annotated query, nodes numbered in order of creation |
| WrapperLaws.MemoryAnnotated | QueryProcessor/QueryProcessor.cpp:2654-2666 | (memory n e) is annotated as e with the size n and the type of e |
| WrapperLaws.CounterAnnotated | QueryProcessor/QueryProcessor.cpp:2603-2636 | (counter n e) likewise, and is a type error unless n is one of 1 to 16 |
| WrapperLaws.PredInfoAnnotated | QueryProcessor/QueryProcessor.cpp:2639-2652 | (predinfo s c e) is annotated as e, with its type |
| WrapperLaws.ApplicationNode | QueryProcessor/QueryProcessor.cpp:3289-3308 | the node of an application needs memory exactly when its operator does, and starts without memory size and counter |
| WrapperLaws.MemoryBuilt | QueryProcessor/QueryProcessor.cpp:3576-3596 | wrapped in a memory size the node is the same but for that size, in 64 bits, if the operator uses memory |
| WrapperLaws.CounterBuilt | QueryProcessor/QueryProcessor.cpp:3546-3575 | wrapped in a counter it is the same but for the counter's number; predicate information and wrapped leaves change nothing |
| WrapperLaws.ExplicitSizeKept | QueryProcessor/QueryProcessor.cpp:3576-3708 | from annotation to the distribution of memory: an explicit size stays |
| WrapperLaws.ShareGiven | QueryProcessor/QueryProcessor.cpp:3576-3708 | and an operator without one gets what the explicit sizes leave of the global memory, divided by the number of operators without one, 16 at least, if it uses memory |
| WrapperLaws.EvaluableRoots | QueryProcessor/QueryProcessor.cpp:3883-3906 | an application is evaluable by itself unless it yields a stream; functions, argument lists and identifiers are not |
| QueryProcessing.QueryProcessor.AllocateArgVectors | QueryProcessor/QueryProcessor.cpp:3121-3132 | one distinct argument vector for each function number, all slots null |
| EvaluationCorrect.TreeFits | QueryProcessor/QueryProcessor.cpp:3326-3344 | every argument vector that the tree of a resolved expression refers to exists, and every slot is in range, if no function has more parameters than a vector has slots |
| Compilation.ResolvedFits | QueryProcessor/QueryProcessor.cpp:3121-3132 | this holds for the whole tree over the vectors that are allocated for it |
| QueryProcessing.QueryProcessor.LoadArguments | QueryProcessor/QueryProcessor.cpp:4417-4429 | parameters are copied to the first slots of a function's vector, everything else stays |
| QueryProcessing.QueryProcessor.EvalArguments | QueryProcessor/QueryProcessor.cpp:4352-4399 | evaluable sons are evaluated into the node's own vector, others leave their address |
| QueryProcessing.QueryProcessor.Eval | QueryProcessor/QueryProcessor.cpp:4202-4522 | evaluation over the arrays gives the model's result and leaves the model's store |
| QueryProcessing.QueryProcessor.CallValueMapping | QueryProcessor/QueryProcessor.cpp:4650-4710 | requests, also of elements of argument lists, load a parameter function's vector, evaluate it and hand the result to the operator |
| EvaluationCorrect.EvalCorrect | QueryProcessor/QueryProcessor.cpp:4202-4522 | evaluating the tree of a resolved expression gives its meaning in the environment that the argument vectors hold, and writes only inside the expression's own vectors |
| EvaluationCorrect.RunOpCorrect | QueryProcessor/QueryProcessor.cpp:4684-4710 | an operator sees the same arguments and answers as in the environment semantics, whatever it requests, through argument lists of any depth |
| EvaluationCorrect.ApplicationCorrect | QueryProcessor/QueryProcessor.cpp:4405-4437 | an applied abstraction evaluates its arguments, then its body with the parameters bound to them |
| Compilation.CompilationPreservesMeaning | QueryProcessor/QueryProcessor.cpp:3716-3880 | a well-scoped query that resolves is never refused for its type, is reported as undefined exactly when one of its objects is, and otherwise the answer of annotate, build and evaluate equals environment evaluation of its lexical resolution; where no operator accepts an argument with a type error, exactly the queries that do not resolve are refused; a query that does not resolve and carries no error of its own is not evaluated if type mappings reject with `typeerror` itself |
| OperatorLaws.ConstantsAnswered | QueryProcessor/QueryProcessor.cpp:3367-3379 | a query of a registered operator and constants is answered by the first candidate that takes them, with the evaluation function that its selection function chooses for their types, on their values and those its type mapping appended; if it requests its arguments it sees none of them evaluated |
| OperatorLaws.OtherwiseRefused | QueryProcessor/QueryProcessor.cpp:2812-2846 | if no candidate takes them, or the selection function of the first gives a negative number, the query is refused |
| OperatorLaws.ObjectBeforeOperator | QueryProcessor/QueryProcessor.cpp:2006-2104 | the name of an object answers the object even if there is an operator of that name |
| Compilation.ResolvedAccepted | QueryProcessor/QueryProcessor.cpp:3784-3846 | every query that resolves is well typed, and is accepted exactly when all its objects have values |
| Compilation.ResolvedBuilt | QueryProcessor/QueryProcessor.cpp:3171-3610 | a query that resolves over defined objects is not built exactly when a list is longer than a vector, a parameter is a function, or the result type of an operator has no type constructor |
| Building.BuiltIsClean | QueryProcessor/QueryProcessor.cpp:3420-3438 | whatever the type mappings do, an annotation that is built has no error anywhere, if the query carries none of its own (ill-typed constant or object, symbol `typeerror`, counter number out of range) and no result type has one inside |
| Building.ConstructorLookedUp | QueryProcessor/SecondoCatalog.cpp:532-579 | the type constructor of a result type is found by its symbol or the first symbol of its list, and for a stream by those of its elements |
| Compilation.BuiltResolves | QueryProcessor/QueryProcessor.cpp:3420-3438 | of the well-scoped queries that pass the test and are built, exactly those resolve that carry no error of their own and get no result type with an error inside; the first condition alone decides if type mappings reject with the symbol `typeerror` itself |
| IllTypedQueries.NestedErrorNotBuilt | QueryProcessor/QueryProcessor.cpp:3420-3438 | the query (f (g)), whose operand is a type error, passes the tests and is not built |
| IllTypedQueries.IllTypedConstantAnswered | QueryProcessor/QueryProcessor.cpp:2258-2265 | the query (f v w) with an ill-typed constant w does not resolve, is built and answered, w standing for the first constant of the query |
| IllTypedQueries.CounterOutOfRangeBuilt | QueryProcessor/QueryProcessor.cpp:2603-2636 | a counter with any number outside 1 to 16 below an operator that accepts it does not resolve, but is built |
| IllTypedQueries.ErrorSymbolBuilt | QueryProcessor/QueryProcessor.cpp:2143-2162 | so is the symbol `typeerror` as an identifier |
| IllTypedQueries.HiddenErrorBuilt | QueryProcessor/SecondoCatalog.cpp:532-579 | and an application whose result type has the error inside, although the query carries none of its own |
| QueryProcessing.QueryProcessor.Query | QueryProcessor/QueryProcessor.cpp:3716-3890 | the methods together give the outcome: refused, undefined, not built, not evaluable, or that answer |
| StreamQueries.HeadOfStream | QueryProcessor/QueryProcessor.cpp:4684-4763 | in the lexical reading the head of a stream has as many of its first elements as the number says, or all if there are fewer |
| StreamQueries.FilterOfStream | QueryProcessor/QueryProcessor.cpp:4684-4763 | filtering by a comparison with a constant keeps the elements for which it holds, in order |
| StreamQueries.StreamShape | QueryProcessor/QueryProcessor.cpp:3326-3460 | the tree of a resolved stream is a stream of the protocol, with indices of its own for its nodes and numbers of its own for its functions, and reads parameters only of functions around it |
| StreamQueries.StreamMeaning | QueryProcessor/QueryProcessor.cpp:3326-3460 | over the argument vectors of the functions around it that tree denotes the list which the stream means under lexical scoping |
| StreamQueries.StreamQueryMeaning | QueryProcessor/QueryProcessor.cpp:3716-3880 | so for whole queries that consume streams: tree, indices, numbers and value |
| StreamQueries.Evaluate | QueryProcessor/QueryProcessor.cpp:4202-4522 | annotating, building and running such a query by messages gives its lexical value |
| ArgumentVectors.EvaluationFrame | QueryProcessor/QueryProcessor.cpp:4286-4437 | evaluating any tree writes only the vectors of functions strictly inside it and its own nodes' arguments |
| ArgumentVectors.ParameterReadsBack | QueryProcessor/QueryProcessor.cpp:4286-4336 | parameter k of p reads back what was loaded exactly when p <= MAXARG - k |
| ArgumentVectors.ParametersAreSafe | QueryProcessor/QueryProcessor.cpp:4665-4676 | no argument slot meets a stream caller's slot exactly when 2p <= MAXARG |
| QueryMemory.CountMemoryOperators | QueryProcessor/QueryProcessor.cpp:3668-3691 | counts the operators without a size and adds up the explicit sizes |
| QueryMemory.DistributeMemory | QueryProcessor/QueryProcessor.cpp:3693-3708 | the share goes to exactly the operators without a size |
| QueryMemory.ConstructMemory | QueryProcessor/QueryProcessor.cpp:3855-3867 | both passes with the share computed between them |
| QueryMemory.MemoryDistribution | QueryProcessor/QueryProcessor.cpp:3855-3867 | in every tree explicit sizes stay, every memory-using operator gets memory and nothing else changes; what is distributed is just below what the explicit sizes (summed in 64 bits) leave of the global memory, or exactly 16 for each operator when that does not suffice |
| StreamProtocol.StreamEvaluator.Eval | QueryProcessor/QueryProcessor.cpp:4352-4402 | OPEN makes the stream stand for its list and evaluates the simple argument of each node once; REQUEST delivers the next element and tells whether there was one, REQUEST and CLOSE evaluate and change no cached argument; only the tree's own nodes and the vectors of its own functions change |
| StreamProtocol.StreamEvaluator.LoadArgument | QueryProcessor/QueryProcessor.cpp:4352-4402 | the value of the simple argument is cached at the node |
| StreamProtocol.StreamEvaluator.EvalSimple | QueryProcessor/QueryProcessor.cpp:4684-4763 | a simple node evaluates to its meaning for the parameters in the vectors; a consumed stream is opened, requested until it does not yield, and closed |
| StreamProtocol.StreamEvaluator.CallFunction | QueryProcessor/QueryProcessor.cpp:4650-4690 | the element is loaded into the vector of the filter's function, and the function, which may consume streams and call functions itself, decides as its meaning does |
| StreamProtocol.StreamEvaluator.Deliver | QueryProcessor/QueryProcessor.cpp:4684-4763 | OPEN, REQUEST until the first message that is not YIELD, CLOSE deliver the list denoted at OPEN, whatever happens in between to the parameters that the stream's own functions do not read; each simple argument is evaluated once |
| StreamProtocol.RestFrame | QueryProcessor/QueryProcessor.cpp:4352-4402 | what a stream will still deliver depends on what the nodes it sends messages to remember, and on the parameters its functions read |
| StreamProtocol.OpenFilterFollows | QueryProcessor/QueryProcessor.cpp:4308-4312 | an open filter follows a change of a parameter that its function reads |
| CatalogSystem.SecondoCatalog.InsertType | QueryProcessor/SecondoCatalog.cpp:307-356 | the model's step: a pending insertion, or an update when the type was deleted before |
| CatalogCorrect.InsertTypeSees | QueryProcessor/SecondoCatalog.cpp:307-356 | succeeds exactly for a name that is not visible, and adds that name |
| CatalogSystem.SecondoCatalog.DeleteType | QueryProcessor/SecondoCatalog.cpp:358-448 | the model's step with its three results |
| CatalogSystem.SecondoCatalog.TypeUsedByObject | QueryProcessor/SecondoCatalog.cpp:450-491 | the two scans find a pending or a stored object with the type's name, if there is one |
| CatalogCorrect.TypeUsedExactly | QueryProcessor/SecondoCatalog.cpp:450-491 | a type counts as used exactly when a visible object carries it or a stored one hidden by this transaction does |
| CatalogCorrect.DeleteTypeSees | QueryProcessor/SecondoCatalog.cpp:374-438 | deletion removes the name and leaves no visible object with it; it is refused exactly for a used type, and unknown exactly for an invisible one |
| CatalogSystem.SecondoCatalog.MemberType | QueryProcessor/SecondoCatalog.cpp:493-527 | tells whether the type is visible |
| CatalogSystem.SecondoCatalog.GetTypeExpr | QueryProcessor/SecondoCatalog.cpp:611-660 | the expression in the overlay, else in the file |
| CatalogSystem.SecondoCatalog.ListTypes | QueryProcessor/SecondoCatalog.cpp:227-304 | the stored types that are not hidden, then the pending ones |
| CatalogListing.TypesListedOnce | QueryProcessor/SecondoCatalog.cpp:227-304 | each visible type is listed exactly once, with the expression lookup returns |
| CatalogSystem.SecondoCatalog.ListObjects | QueryProcessor/SecondoCatalog.cpp:858-922 | the stored objects that are not hidden, then the pending ones |
| CatalogListing.ObjectsListedOnce | QueryProcessor/SecondoCatalog.cpp:858-922 | each visible object is listed exactly once, with the type name and expression lookup returns |
| CatalogSystem.SecondoCatalog.CreateObject | QueryProcessor/SecondoCatalog.cpp:1123-1163 | an insertion without a value |
| CatalogSystem.SecondoCatalog.InsertObject | QueryProcessor/SecondoCatalog.cpp:1209-1250 | the model's step: a pending insertion, or an update without a value record when the object was deleted before |
| CatalogCorrect.InsertObjectSees | QueryProcessor/SecondoCatalog.cpp:1209-1250 | succeeds exactly for a name that is not visible, adds that object only, keeps the invariant |
| CatalogSystem.SecondoCatalog.IsObjectName | QueryProcessor/SecondoCatalog.cpp:1641-1683 | tells whether the object is visible |
| CatalogSystem.SecondoCatalog.GetObjectExpr | QueryProcessor/SecondoCatalog.cpp:1975-2055 | the object in the overlay, else in the files |
| CatalogSystem.SecondoCatalog.DeleteObject | QueryProcessor/SecondoCatalog.cpp:1255-1318 | the model's step; a stored object gets an entry without its value record |
| CatalogCorrect.DeleteObjectSees | QueryProcessor/SecondoCatalog.cpp:1255-1318 | succeeds exactly for a visible object, removes that one only, keeps the invariant |
| CatalogSystem.SecondoCatalog.KillObject | QueryProcessor/SecondoCatalog.cpp:1401-1461 | the model's step; a stored object leaves the files at once |
| CatalogCorrect.KillObjectSees | QueryProcessor/SecondoCatalog.cpp:1401-1461 | removes the visible object only, although it writes to the files; no other object loses its value |
| CatalogSystem.SecondoCatalog.UpdateObject | QueryProcessor/SecondoCatalog.cpp:2194-2288 | the model's step; the entry remembers the stored value record |
| CatalogCorrect.UpdateObjectSees | QueryProcessor/SecondoCatalog.cpp:2194-2288 | gives a visible object the new value and changes nothing else |
| CatalogSystem.SecondoCatalog.ModifyObject | QueryProcessor/SecondoCatalog.cpp:2290-2365 | the model's step |
| CatalogCorrect.ModifyObjectSees | QueryProcessor/SecondoCatalog.cpp:2290-2365 | gives a visible object the new value and changes nothing else |
| CatalogSystem.SecondoCatalog.StoreTypes | QueryProcessor/SecondoCatalog.cpp:3281-3336 | the type entries are stored one after the other |
| CatalogSystem.SecondoCatalog.StoreUndefined | QueryProcessor/SecondoCatalog.cpp:3343-3443 | first pass: objects are stored with undefined values or deleted |
| CatalogSystem.SecondoCatalog.StoreValue | QueryProcessor/SecondoCatalog.cpp:3463-3583 | second pass for one object: its value is saved in place or in an appended record |
| CatalogSystem.SecondoCatalog.StoreValues | QueryProcessor/SecondoCatalog.cpp:3463-3583 | the second pass over all entries |
| CatalogSystem.SecondoCatalog.CleanUp | QueryProcessor/SecondoCatalog.cpp:3268-3594 | commit as modelled, or only empty overlays on abort |
| CatalogCorrect.TwoPassCommitIsSafe | QueryProcessor/SecondoCatalog.cpp:3343-3583 | after the first pass and after every object of the second the stored names are the visible ones, processed objects have their final value, touched ones are undefined, untouched ones unchanged, and no value record is shared |
| CatalogCorrect.CommitStoresVisible | QueryProcessor/SecondoCatalog.cpp:3268-3594 | commit stores exactly what is visible, changes nothing visible and empties the overlays |
| CatalogSystem.SecondoSystem.BeginTransaction | QueryProcessor/SecondoSystem.cpp:939-945 | the files are remembered |
| CatalogSystem.SecondoSystem.CommitTransaction | QueryProcessor/SecondoSystem.cpp:947-954 | clean up, then the files stay |
| CatalogSystem.SecondoSystem.AbortTransaction | QueryProcessor/SecondoSystem.cpp:956-963 | clean up, then the files are those of the beginning |
| CatalogCorrect.StepRefines | QueryProcessor/SecondoSystem.cpp:939-963 | every command keeps the overlay invariant and does to the visible maps what the specification with a snapshot allows |
| CatalogCorrect.RunRefines | QueryProcessor/SecondoSystem.cpp:939-963 | every run of begin, insert, create, update, modify, delete, kill, commit and abort is a run of plain maps with snapshot rollback, and in no state do two stored objects share a value record |
| LocalChannel.LocalSocket.WriterMoves | ClientServer/Win32Socket.cpp:867-925 | one atomic step of `Write` on the shared buffer, as the transition says; blocked exactly when it waits without an event |
| LocalChannel.LocalSocket.WriterStores | ClientServer/Win32Socket.cpp:884-897 | copies one byte in place, or publishes the end index |
| LocalChannel.LocalSocket.ReaderMoves | ClientServer/Win32Socket.cpp:806-865 | one atomic step of `Read` |
| LocalChannel.LocalSocket.ReaderFetches | ClientServer/Win32Socket.cpp:749-769 | fetches one byte, or publishes the begin index |
| LocalChannel.LocalSocket.Interleave | ClientServer/Win32Socket.cpp:727-925 | the shared buffer goes through the steps of writer and reader that a schedule says, a blocked or idle side standing still, and keeps the invariant |
| LocalChannel.StepKeepsInv | ClientServer/Win32Socket.cpp:727-925 | every step of either side keeps ring contents, the bounds of stale snapshots and pending wake-ups |
| LocalChannel.FirstInFirstOut | ClientServer/Win32Socket.cpp:740-902 | in every interleaving bytes read, followed by the ring, are the bytes published; with those under way they are the bytes written; what is being fetched was not overwritten; the indices meet exactly when all has been read |
| LocalChannel.WakeUpsArrive | ClientServer/Win32Socket.cpp:742-908 | a side that waits for what is there has its event set or the other side on its way to set it; the two sides are never both blocked |
| LocalDuplex.BothInOrder | ClientServer/Win32Socket.cpp:727-925 | in every run of both directions, whatever flags are cleared, the bytes of each arrive in order and none is overwritten |
| LocalDuplex.ClearingIsFatal | ClientServer/Win32Socket.cpp:909 | once the flag of the other buffer is cleared some schedule leaves that direction dead, both sides waiting on an empty ring, exactly when its writer waits for space or is about to, its event is not set and its reader is not about to set it |
| LocalDuplex.DeadForEver | ClientServer/Win32Socket.cpp:773-908 | a dead direction stays dead whatever happens in the other |
| LocalDuplex.SafeExactly | ClientServer/Win32Socket.cpp:867-925 | both directions keep the invariant, and with it their wake-ups, exactly in the runs in which no waking writer clears a flag in such a state |
| LocalDuplex.TakingTurnsIsSafe | ClientServer/Win32Socket.cpp:867-925 | if no Write is begun at one end while a Write of the other end is in progress, both directions keep the invariant in every interleaving |
| LocalDuplex.LostWakeUpIsFatal | ClientServer/Win32Socket.cpp:909 | from every reachable state in which a waking writer is about to clear a flag in such a state, a dead direction is reachable |
| LocalDuplex.OverlapIsFatal | ClientServer/Win32Socket.cpp:867-925 | for rings of every size, two overlapping Writes of at least as many bytes as the ring has slots can end with a dead direction, although one of the calls has returned |
| SocketStream.SocketBuffer.Sync | ClientServer/SocketIO.cpp:80-92 | the put area goes to the socket in order and is empty |
| SocketStream.SocketBuffer.Overflow | ClientServer/SocketIO.cpp:94-112 | one more byte behind all earlier ones, or a flush for the end-of-file mark; the put area is written only when it is full |
| SocketStream.SocketBuffer.Xsputn | ClientServer/SocketIO.cpp:114-131 | all bytes behind all earlier ones, how many of them stay in the put area, and termination although a full put area does not shorten the argument |
| SocketStream.SocketBuffer.Underflow | ClientServer/SocketIO.cpp:134-153 | the next byte without taking it, after waiting for it if there is none; the end exactly when the peer has closed and nothing is left |
| SocketStream.SocketBuffer.Uflow | ClientServer/SocketIO.cpp:155-165 | takes the next byte, or reports the end |
| SocketStream.SocketBuffer.Xsgetn | ClientServer/SocketIO.cpp:168-185 | takes as many bytes as asked for, in order, waiting for them; fewer only when the peer has closed; it does not wait if they are there |
| SocketStream.Connection.PerformAll | ClientServer/SocketIO.cpp:80-185 | whatever the mix of operations at both ends, the bytes put are those handed over, in order; the bytes delivered are a prefix of them, exactly as many as the gets asked for and the flushes, explicit or of a full put area, let through; all of them once flushed and drained |
| SocketStream.TallyConserves | ClientServer/SocketIO.cpp:80-185 | no byte is lost or made up: bytes got, bytes that can be got and bytes in the put area are together those put |
| SocketStream.Connection.CloseAndDrain | ClientServer/SocketIO.cpp:67-185 | flushing and closing, and getting until the end, delivers everything that was put |
| RingStream.ActKeepsInv | ClientServer/SocketIO.cpp:80-185 | every put, flush and get, and every step of the calls of `Write` and `Read` they make, keeps the ring, the areas and what the reads still need |
| RingStream.EveryByteInOrder | ClientServer/SocketIO.cpp:80-185 | in every interleaving the bytes taken by gets, those in the get area or fetched for it, the ring, those being written and the put area are the bytes put, in order |
| RingStream.InsideLowers | ClientServer/Win32Socket.cpp:727-925 | between two calls only finitely many steps happen, in whatever order |
| RingStream.RestMeans | ClientServer/SocketIO.cpp:134-185 | when no step is possible a get under way has taken all that was flushed, and otherwise the sender is back from `Write` or waits with the ring full |
| RingStream.GetsComplete | ClientServer/SocketIO.cpp:134-185 | however the steps interleave, when they have come to an end the get has taken the next bytes, as many as it asked for if so many were flushed, otherwise all that were |
| RingStream.ComesToRest | ClientServer/SocketIO.cpp:134-185 | under every scheduler the steps come to an end |
| ShapefileSplit.LoadSwapped | Tools/Utilities/WinUnix.cpp:203-209 | swapping a word read on a little-endian host gives its big-endian value |
| ShapefileSplit.StoreSwapped | Tools/Utilities/WinUnix.cpp:203-209 | a swapped word is written with its value in big-endian order |
| ShapefileSplit.FilesOfRecords | ClientServer/SecondoInterfaceREPLAY.cpp:2018-2042 | records whose second word says their length in units of two bytes, written one behind the other, are read back as these records |
| ShapefileSplit.RecordStands | ClientServer/SecondoInterfaceREPLAY.cpp:2018-2042 | byte by byte: each record of a file stands where the one before it ends, and its content is as long as its second word says |
| ShapefileSplit.CopyRecord | ClientServer/SecondoInterfaceREPLAY.cpp:2018-2042 | the next record is copied with a new number and the same length and content; nothing at the end of the file |
| ShapefileSplit.SplitPiece | ClientServer/SecondoInterfaceREPLAY.cpp:2005-2049 | a piece takes the next records, and more than its share of bytes if it leaves any |
| ShapefileSplit.SharesCover | ClientServer/SecondoInterfaceREPLAY.cpp:2000 | n pieces of more than the rounded share hold more than the whole |
| ShapefileSplit.NothingLeft | ClientServer/SecondoInterfaceREPLAY.cpp:2000-2050 | after n pieces no record is left |
| ShapefileSplit.SplitMain | ClientServer/SecondoInterfaceREPLAY.cpp:1985-2052 | the pieces have the header and the consecutive ranges of all records that the counts say |
| ShapefileSplit.PieceIsMainFile | ClientServer/SecondoInterfaceREPLAY.cpp:2012-2042 | a piece is again a well-formed main file with its records numbered 1, 2, 3, ... |
| ShapefileSplit.PieceStatesLength | ClientServer/SecondoInterfaceREPLAY.cpp:2053-2069 | the header of a piece states the length of the whole file, which is the piece's own exactly when it has all the records |
| ShapefileSplit.SplitRows | ClientServer/SecondoInterfaceREPLAY.cpp:2119-2160 | each piece of the dBASE file has the header with its own count and its consecutive rows |
| ShapefileSplit.SplitDbf | ClientServer/SecondoInterfaceREPLAY.cpp:2072-2160 | accepts exactly the versions and header lengths the source accepts, and divides the rows |
| ShapefileSplit.PiecesRead | ClientServer/SecondoInterfaceREPLAY.cpp:2147-2159 | byte by byte: each piece states its own number of rows at offset 4, has the rest of the header unchanged, and behind it the rows of its range, with the header's length and the rows' size as stated at offsets 8 and 10 |
| ShapefileSplit.AcceptedBytes | ClientServer/SecondoInterfaceREPLAY.cpp:2082-2118 | byte by byte: the versions and header lengths that are accepted |
| ShapefileSplit.SoundBytes | ClientServer/SecondoInterfaceREPLAY.cpp:2072-2118 | and, for the pair of files, what the results on divided rows ask for |
| ShapefileSplit.SplitShp | ClientServer/SecondoInterfaceREPLAY.cpp:1957-2165 | both files are divided into the same ranges, which cover everything: geometry and row stay together |
| FileDistribution.DealLots | ClientServer/SecondoInterfaceREPLAY.cpp:2733-2746 | the nested loop gives every node its lot |
| FileDistribution.DealRest | ClientServer/SecondoInterfaceREPLAY.cpp:2748-2753 | the remainder goes one by one to the first nodes |
| FileDistribution.DistributeImages | ClientServer/SecondoInterfaceREPLAY.cpp:2733-2753 | node i receives the elements at its positions, and loads differ by one at most |
| FileDistribution.ReceivedOnce | ClientServer/SecondoInterfaceREPLAY.cpp:2733-2753 | every position of the list goes to one node, and there to one place |
| FileDistribution.GetSumAllCoresFromNodes | ClientServer/SecondoInterfaceREPLAY.cpp:732-750 | the sum of the cores in an unsigned 32-bit word, with 0 for what cannot be read |
| FileDistribution.AssignRanges | ClientServer/SecondoInterfaceREPLAY.cpp:1364-1377 | each range has as many pieces as the node has cores and begins where the one before ends; none exactly when a number cannot be read |
| FileDistribution.RangesPartition | ClientServer/SecondoInterfaceREPLAY.cpp:1364-1377 | the pieces below the sum are exactly those assigned, each to one node |
| Registrar.SecondoRegistrar.ExecRegister | ClientServer/SecondoRegistrar.cpp:102-120 | adds a registration unless the database is locked |
| Registrar.SecondoRegistrar.ExecUnregister | ClientServer/SecondoRegistrar.cpp:122-150 | removes one registration of the pair, if there is one |
| Registrar.SecondoRegistrar.ExecLock | ClientServer/SecondoRegistrar.cpp:152-178 | locks exactly a database that is neither locked nor registered |
| Registrar.SecondoRegistrar.ExecUnlock | ClientServer/SecondoRegistrar.cpp:180-198 | removes the lock, whoever asks |
| Registrar.SecondoRegistrar.ExecLogin | ClientServer/SecondoRegistrar.cpp:200-209 | adds a login |
| Registrar.SecondoRegistrar.ExecLogout | ClientServer/SecondoRegistrar.cpp:211-238 | removes one login of the pair, if there is one |
| Registrar.SecondoRegistrar.ExecLogMsg | ClientServer/SecondoRegistrar.cpp:240-248 | queues a message |
| Registrar.SecondoRegistrar.ExecShowMsgs | ClientServer/SecondoRegistrar.cpp:250-261 | shows the queued messages in order and empties the queue |
| Registrar.SecondoRegistrar.ProcessCommands | ClientServer/SecondoRegistrar.cpp:325-381 | the command loop answers every command as those obeyed before it say |
| Registrar.LocksAreHeld | ClientServer/SecondoRegistrar.cpp:152-198 | after a run a database is locked exactly when its last obeyed Lock or Unlock is a Lock, by that user |
| Registrar.ObeyedExactly | ClientServer/SecondoRegistrar.cpp:102-238 | Lock is obeyed exactly when the database is not so locked and no user is registered more often than unregistered, Register exactly when it is not so locked, Unlock exactly when it is, Unregister and Logout exactly when something is left to take back, the others always |
| Registrar.NeverLockedAndRegistered | ClientServer/SecondoRegistrar.cpp:102-198 | after no run is a database both locked and registered |
| Registrar.TablesCount | ClientServer/SecondoRegistrar.cpp:102-238 | registrations and logins of a pair are the successful additions minus the successful removals |
| Registrar.MessagesConserved | ClientServer/SecondoRegistrar.cpp:240-261 | all messages shown, followed by the queue, are the messages logged, in order |

## Left out

- Parsing and printing of nested lists: queries are a datatype with the four shapes that the compiler tells apart.
- Nodes of the operator tree are values; in place are the argument vectors, the nodes' argument arrays, the tables and counters of the annotation, and the per-node memory of the stream protocol.
- Compilation.CompilationPreservesMeaning: equality of results is stated for resolved queries without streams (for those see `StreamQueries.StreamQueryMeaning`), in which the result types of operators have type constructors, functions and argument lists are arguments of operators, or functions are applied at once, with at most 50 parameters (`Meaning.Supported`); with more parameters it fails, as `ArgumentVectors.ParametersAreSafe` says. Acceptance and refusal are compared for all well-scoped queries.
- Compilation.BuiltResolves: what a type mapping hides inside a type is a condition on the annotation; the condition on type mappings that excludes it (`Building.Forthright`) is sufficient, and `IllTypedQueries.HiddenErrorBuilt` shows a query without it.
- QueryProcessing.QueryProcessor.Subtree: the result objects of operators are not allocated; that each can be is part of `OperatorTree.Buildable`.
- Compilation.StrictExactly: type mappings that look at argument expressions besides their types have the sufficient condition `Compilation.WellTypedResolves` and, for one application, the exact one `Compilation.ErrorOverlooked`.
- QueryProcessing.QueryProcessor.Query: the outcome "not built" stands for the places where the source ends the process, as for a result type without constructor, or looks up an operator with a negative number; the distinction between the errors for trees that are not evaluable, and incomplete queries, are not modelled.
- Streams and functions as arguments of parameter functions (the FUNMSG mechanism): the meaning theorem covers value parameters; the slots this mechanism uses are covered by `ArgumentVectors.ParameterReadsBack`.
- Stored functions that refer to each other: annotation follows them to a depth that is a parameter and refuses beyond it, where the program would recurse for ever.
- QueryProcessing.QueryProcessor.AppendArguments: appended arguments are constants.
- QueryProcessing.QueryProcessor.ApplyOperator: appended arguments are constants.
- QueryProcessing.QueryProcessor.Annotate: appended arguments of type mappings are constants; general expressions as appended arguments, pointers and types written with `typeOf` are not modelled.
- QueryProcessing.QueryProcessor.Eval: streams have no result here, and cached results of stream nodes do not occur; both are in `StreamProtocol`, to which `StreamQueries` translates the nodes of a tree.
- QueryProcessing.QueryProcessor.EvalArguments: fills the node's vector for values only, as `Eval`.
- Counter values, predicate selectivities, cost estimation, progress messages, user cancel, tracing and heartbeat.
- An out-of-range counter number is an error in the model as in `Annotate`; number 16 is accepted although the array of counters has the indices 0 to 15.
- The wrappers for counters and memory sizes need their elements written out; a list with further elements after them is outside the supported queries.
- An operator that requests an argument it does not have, or with a wrong number of parameters, has no result.
- An argument list that is itself requested has no result; its elements have.
- StreamProtocol.StreamEvaluator.Eval: the operators are feed, filter, head and concat; a filter's function has one parameter and compares two simple expressions, which may consume streams with filters of their own. Other stream operators, and streams as parameters, are not modelled.
- StreamProtocol.StreamEvaluator.Deliver: for this family of operators, as `Eval`.
- StreamQueries.StreamQueryMeaning: for the same family; values of other operators do not occur inside such a query, and vectors are counted from 1 like functions.
- Aliasing and deallocation of result storage: results are values.
- Main-memory objects, system tables, reserved names, the mutex and closed databases in the catalog.
- `RenameObject`, which moves an entry in update state without hiding the stored old name.
- Storage calls succeed; return codes of `CleanUp` are not modelled. An inserted record that was given no value record id reads as id 0.
- Freeing of value records that a deleted object leaves behind: only non-sharing is claimed.
- Timeouts, broken pipes, handshake, TCP and UDP; after a wait for space on one direction the flag cleared is that of the other, which is covered by `LocalDuplex`.
- LocalChannel.FirstInFirstOut: memory is sequentially consistent and an index is read in one step; weaker memory is not modelled.
- LocalDuplex.TakingTurnsIsSafe: the converse is stated from the states (`SafeExactly`, `LostWakeUpIsFatal`) and for Writes larger than the ring (`OverlapIsFatal`); overlapping Writes that never wait for space lose nothing.
- Failing writes in the stream buffer, writing after closing, and reads that fail other than at the end.
- SocketStream.Connection.PerformAll: an operation that would block is not performed in its turn; a get that waits in the middle is in `RingStream`.
- RingStream.EveryByteInOrder: one direction; closing, and writes of more than the put area at once, which the stream buffer does not make, are not modelled.
- ShapefileSplit.PieceIsMainFile: says nothing of the length in the header, which `ShapefileSplit.PieceStatesLength` does; the file of another name in which the source writes it is not modelled.
- ShapefileSplit.SplitMain: the theorem is for files of whole records below 4 GB; of a file without records the source allocates a buffer of undefined size, which the model does not show.
- ShapefileSplit.SplitDbf: pieces are described for files that have their whole header and enough rows; otherwise the source writes uninitialised bytes.
- CSV and DBLP splitters, file transfer, threads and command texts.
- The registrar's listing commands for users, locks and databases, and its socket loop.
