# Plaia semantic core in Dafny

Plaia is a small imperative language with these constructs:

- integer, boolean and pointer values;
- variable declarations with or without an initialiser;
- assignment through variables and dereferenced pointers;
- blocks;
- a first-match `case` statement, with `if` as sugar for a one-arm `case`.

Its evaluation rules are written once, generically, against an exchangeable
*domain* (`ValCompute`) and an *evaluator* interface (`Evaluator`). They are
then instantiated twice:

- for concrete execution, where values are integers, addresses, tuples and
  vectors, the heap is a growable vector and names live in a stack of stores;
- for a sign analysis, where values are Pos, Neg, Zero, Unknown or an address.

This project models that core in direct style and proves properties of it.

- `ast.dfy` (module `Ast`): the abstract syntax and its four smart
  constructors (`Symbol::new`, `TypeBind::new`, `if_statement`, `new_block`).
- `errors.dfy` (module `Errors`): the outcomes of the source's panics
  (`unwrap` of a missing key, an index out of range, `panic!`, `todo!`),
  modelled as an `Err` result. There is no recovery from them.
- `concrete.dfy` (module `Concrete`) covers the concrete domain:
  - the `SimpleValue` operator table, literal and address conversions, and
    literal-pattern matching;
  - the `ConcreteEvaluator` as a class, with its heap, frame stack, current
    frame index and a ghost trace. Its methods are proved against a
    functional `Machine` state.
  - the `initial_state` for `main`.
- `interpret.dfy` (module `Interpret`) covers the generic engine:
  - `eval_lval` and `eval_expr` as functions over a read-only view of the
    heap and the current store;
  - `run_stmt` as the specification functions `Exec`/`ExecBlock`/`ExecCase`;
  - the imperative `RunStmt`/`RunBlock`/`RunCase` on the class, proved equal
    to those functions;
  - the untraced and the tracing statement hooks, and the program run;
  - lemmas about each statement form, the tracing wrapper's transparency, and
    two whole-program runs.
- `signed.dfy` (module `Signed`) covers the sign domain:
  - the operator table exactly as written, with exhaustive table lemmas;
  - soundness of +, −, × against integer arithmetic;
  - the sign instance as written (`WrittenSignedValues`) and a corrected
    instance (`SoundSignedValues`);
  - two unsound entries exhibited (÷ and negative literals), the ÷ one also
    as a run of the engine (`var z = 1 / 2`), and both corrected;
  - with the corrected instance, a soundness proof of the whole engine. If a
    concrete run succeeds, the signed run of the same statement either
    succeeds in an over-approximating state or stops, on a type error or on
    a `case` it cannot decide.

The source's recursion hooks (`concrete_cb`, `concrete_stmt_cb`,
`tracing_concrete_stmt_cb`) become a `tracing` flag.

- With the flag off, nested statements run directly.
- With it on, each nested statement first appends one (heap, current store,
  span) snapshot to the trace.

The top statement handed to `run_stmt` is not itself traced, as in the source.

A declaration with an initialiser evaluates the initialiser before it
allocates the new cell, so the initialiser still sees any binding the
declaration shadows.

## Model

| member | source | states |
|---|---|---|
| Ast.NewSymbol | plaia-language/src/language/plaia/ast.rs:5-13 | the symbol carries exactly the given name, and two constructed symbols are equal exactly when their names are |
| Ast.NewTypeBind | plaia-language/src/language/plaia/ast.rs:98-105 | the binding stores exactly the given name, type and span |
| Ast.IfStatement | plaia-language/src/language/plaia/ast.rs:140-156 | `if e s` is a `case` on `e` with exactly one arm whose pattern is the literal `true` and whose body is `s` unchanged; literal, pattern and arm all carry `s`'s span |
| Ast.NewBlock | plaia-language/src/language/plaia/ast.rs:158-161 | a block holding the given statements in the same order |
| Concrete.TruncDivRoundsTowardZero | src/language/plaia/concrete.rs:63-64 | integer division rounds toward zero: abs(q·b) ≤ abs(a) < abs(q·b) + abs(b) for the quotient `q` of `a` by a non-zero `b` |
| Concrete.TruncDivSign | src/language/plaia/concrete.rs:63-64 | a non-zero quotient is positive exactly when dividend and divisor have the same sign |
| Concrete.SimpleOp | src/language/plaia/concrete.rs:50-83 | an operation succeeds exactly on well-typed operands. Division fails exactly on a zero divisor, and projection exactly on an index outside the tuple or vector. A projection returns the element at the index, comparisons and logic yield 1 or 0, and every other failure is a type error |
| Concrete.BoolValue | src/language/plaia/concrete.rs:65-80 | a truth value is the integer 1 for true and 0 for false |
| Concrete.SimpleIsTrue | src/language/plaia/concrete.rs:42-49 | a value is true exactly when it is the integer 1 |
| Concrete.RelationalOps | src/language/plaia/concrete.rs:65-76 | each comparison of two integers yields the truth value of the relation |
| Concrete.ArithmeticOps | src/language/plaia/concrete.rs:57-64 | + − × of two integers are the mathematical results and ÷ by a non-zero divisor the truncated quotient |
| Concrete.IntegerOps | src/language/plaia/concrete.rs:57-76 | on two integers, + − × give the mathematical result, ÷ the truncated quotient, and comparisons 1 exactly when the relation holds and 0 otherwise |
| Concrete.LogicalOpsOnTruth | src/language/plaia/concrete.rs:77-80 | `and`/`or` of two integers is 1 exactly when both/either operand is the truth value 1, so 2 counts as false |
| Concrete.SimpleFromLit | src/language/plaia/concrete.rs:84-91 | an integer literal denotes that integer, `true` 1 and `false` 0 |
| Concrete.SimpleUnwrapLoc | src/language/plaia/concrete.rs:97-104 | unwrapping succeeds exactly on an address value and returns its address; anything else is a type error |
| Concrete.SimpleLocRoundTrip | src/language/plaia/concrete.rs:92-104 | unwrapping the value made from an address gives that address back |
| Concrete.SimpleInstance | src/language/plaia/concrete.rs:37-105 | the concrete instance (`SimpleValues`): fresh cells hold 0, only 1 is true, every literal is an integer, and unwrapping undoes address injection |
| Concrete.DoMatch | src/language/plaia/concrete.rs:192-204 | only literal patterns are implemented, and a failing equality test is the match's error |
| Concrete.SimpleMatchLiteral | src/language/plaia/concrete.rs:192-204 | a literal pattern matches an integer exactly when that integer equals the literal's value; against a non-integer the match is a type error |
| Concrete.Lookup | src/language/plaia/concrete.rs:112-117 | a bound name yields its address in the current store; an unbound name is an error |
| Concrete.HeapAt | src/language/plaia/concrete.rs:119-124 | an address inside the heap yields the value stored there; any other is an error |
| Concrete.BindingsFrameKey | src/language/plaia/concrete.rs:151-155 | a name bound by the pushed frame sits at a cell in the newly pushed range whose binding carries that very name |
| Concrete.BindingsFrameName | src/language/plaia/concrete.rs:151-155 | every listed name is bound, to the cell of that binding or of a later binding of the same name |
| Concrete.BindingValues | src/language/plaia/concrete.rs:152-153 | the pushed cells are the parameter values, one per binding, in order |
| Concrete.Machine.Alloc | src/language/plaia/concrete.rs:126-132 | the new address is the old heap length; the heap grows by one cell holding `zero`; existing cells, frames and trace are unchanged |
| Concrete.Machine.UpdateStore | src/language/plaia/concrete.rs:134-139 | only the current frame changes, and in it only the name's binding, which now points to the given address |
| Concrete.Machine.UpdateHeap | src/language/plaia/concrete.rs:141-146 | an address inside the heap has only that one cell overwritten, keeping the length; an address outside it is an error |
| Concrete.Machine.PushFrame | src/language/plaia/concrete.rs:148-160 | one new cell per binding is appended in order, a frame binding each name to its cell is pushed, and the current frame index moves to it |
| Concrete.Machine.PopFrame | src/language/plaia/concrete.rs:162-166 | the top frame is dropped and the index decremented; the heap keeps its length and contents |
| Concrete.Machine.Record | src/language/plaia/concrete.rs:230-233 | the trace gains exactly one entry: the current heap, current store and the given span |
| Concrete.PopUndoesPush | src/language/plaia/concrete.rs:148-166 | pushing then popping a frame restores frames and index, and leaves the heap extended by the pushed cells only |
| Concrete.MainOf | src/language/plaia/concrete.rs:257-263 | a `main` is found exactly when some function is named `main`; with several, the last one is taken |
| Concrete.DeclsOf | src/language/plaia/concrete.rs:257-263 | the declaration table holds every function except those named `main`, each under its own name; of several declarations of one name the last is kept |
| Concrete.ScanStep | src/language/plaia/concrete.rs:257-263 | scanning one more function either makes it `main` or enters it into the declarations under its name |
| Concrete.ArgsVector | src/language/plaia/concrete.rs:267-269 | the arguments become a vector of integers, in order |
| Concrete.InitialMachine | src/language/plaia/concrete.rs:265-287 | heap `[0, args]`, a single frame binding `main`'s first parameter to address 1, current frame 0, empty trace |
| Concrete.ConcreteEvaluator.constructor | src/language/plaia/concrete.rs:280-286 | the evaluator holds exactly the given heap, frames, index and declarations, with an empty trace |
| Concrete.ConcreteEvaluator.Alloc | src/language/plaia/concrete.rs:126-132 | pushes `zero` onto the heap and returns its index; the new state is the specification's allocation |
| Concrete.ConcreteEvaluator.UpdateStore | src/language/plaia/concrete.rs:134-139 | inserts the binding into the current frame only; the new state is the specification's store update |
| Concrete.ConcreteEvaluator.UpdateHeap | src/language/plaia/concrete.rs:141-146 | overwrites one in-range cell, or fails leaving the state unchanged; agrees with the specification's heap update in both cases |
| Concrete.ConcreteEvaluator.PushFrame | src/language/plaia/concrete.rs:148-160 | the loop appends the binding values to the heap and pushes the frame that maps each name to its cell, then increments the index |
| Concrete.ConcreteEvaluator.PopFrame | src/language/plaia/concrete.rs:162-166 | drops the top frame and decrements the index, heap untouched |
| Concrete.ConcreteEvaluator.FnDeclOf | src/language/plaia/concrete.rs:206-209 | a declared function's declaration is returned; an unknown name is an error |
| Concrete.InitialState | src/language/plaia/concrete.rs:252-291 | with a `main` that has a parameter, a fresh evaluator in exactly the initial machine state with `main` excluded from the declarations and cell 0 (the return slot) holding 0; without a `main` it fails with `NoMainFunction`, and a parameterless `main` also fails |
| Interpret.EvalLval | src/language/plaia/interpret.rs:47-63 | only a variable or a dereference can be an assignment target; any other shape is `NotAnLValue` |
| Interpret.EvalExpr | src/language/plaia/interpret.rs:65-111 | function calls and negation are not implemented |
| Interpret.LiteralEval | src/language/plaia/interpret.rs:72-75 | a literal evaluates to its injected value and never fails |
| Interpret.VarEval | src/language/plaia/interpret.rs:76-82 | a variable evaluates to the heap cell its current binding points to; an unbound name and a dangling address are errors |
| Interpret.LvalShapes | src/language/plaia/interpret.rs:53-62 | as an lvalue, a variable resolves to its store address and `*e` to the unwrapped value of `e`; every other shape is an error |
| Interpret.RefEval | src/language/plaia/interpret.rs:91-96 | `&e` is the injected address that `e` resolves to as an lvalue |
| Interpret.DerefOfRef | src/language/plaia/interpret.rs:91-108 | in any domain whose unwrap inverts address injection, `*&x` evaluates to the value currently stored at `x` |
| Interpret.SimpleDerefOfRef | src/language/plaia/interpret.rs:91-108 | the same round trip holds in the concrete domain |
| Interpret.BinaryEval | src/language/plaia/interpret.rs:83-90 | a binary expression evaluates its left operand, then its right, and denotes the operator on the two values; an error in either propagates |
| Interpret.AndEvaluatesBoth | src/language/plaia/interpret.rs:83-90 | `and` does not short-circuit: a false left operand does not spare an erroneous right one |
| Interpret.Exec | src/language/plaia/interpret.rs:120-176 | every successful statement keeps the state valid, leaves the current frame index and lower frames alone, only grows the heap, and only extends the trace (untouched without tracing); it keeps every binding inside the heap |
| Interpret.Step | src/language/plaia/concrete.rs:212-235 | the nested-statement hook: untraced it is `run_stmt` itself, traced it records one snapshot first; the same preservation facts hold |
| Interpret.ExecBlock | src/language/plaia/interpret.rs:121-136 | running a statement list preserves state validity, frames and heap length as above |
| Interpret.ExecCase | src/language/plaia/interpret.rs:159-174 | trying arms preserves state validity, frames and heap length as above |
| Interpret.RunStmt | src/language/plaia/interpret.rs:113-177 | the imperative statement runner ends in exactly the state `Exec` computes and fails exactly when it does, with the same error |
| Interpret.RunBlock | src/language/plaia/interpret.rs:121-136 | the loop over the block runs the statements in list order, each seeing the previous one's state, and agrees with `ExecBlock` |
| Interpret.RunCase | src/language/plaia/interpret.rs:159-174 | the loop over the arms runs the first matching arm only, or nothing, and agrees with `ExecCase` |
| Interpret.RunStep | src/language/plaia/concrete.rs:212-235 | the imperative hook agrees with `Step` |
| Interpret.ConcreteStmt | src/language/plaia/concrete.rs:212-217 | the untraced hook runs a statement with no snapshot, agreeing with `Exec` untraced |
| Interpret.TracingConcreteStmt | src/language/plaia/concrete.rs:226-235 | the tracing hook appends one (heap, current store, span) snapshot, then runs the statement traced |
| Interpret.ConcreteRun | src/language/plaia/concrete.rs:294-302 | a program run succeeds exactly when `main` exists, has a parameter and its body runs without error from the initial state; the final state is that run's with one closing snapshot under `main`'s span |
| Interpret.EmptyBlock | src/language/plaia/interpret.rs:121-123 | an empty block leaves the state unchanged |
| Interpret.BlockAppend | src/language/plaia/interpret.rs:124-135 | running `a ++ b` is running `a` then `b` on its result |
| Interpret.BlockSingleton | src/language/plaia/interpret.rs:124-135 | a one-statement block behaves as its nested step |
| Interpret.AssignEffect | src/language/plaia/interpret.rs:138-144 | an assignment evaluates the right side first, then resolves the left side in the unchanged state, and overwrites only that one cell |
| Interpret.AssignTwice | src/language/plaia/interpret.rs:138-144 | when the right side still evaluates to the same value and the left side to the same address after the first run, repeating an assignment leaves the state as one run did |
| Interpret.AssignLiteralTwice | src/language/plaia/interpret.rs:138-144 | assigning a literal to a variable twice equals assigning it once |
| Interpret.VarDeclInit | src/language/plaia/interpret.rs:145-153 | a declaration with an initialiser evaluates it in the old state, allocates a fresh cell at the old heap length, binds the name to it and stores the value there |
| Interpret.VarDeclNoInit | src/language/plaia/interpret.rs:154-158 | a declaration without an initialiser binds the name to a fresh cell that holds `zero` |
| Interpret.VarDeclShadows | src/language/plaia/interpret.rs:145-153 | redeclaring a name with an initialiser that reads it sees the old binding; the old cell is kept and the name now points to the new one |
| Interpret.CaseFirstMatch | src/language/plaia/interpret.rs:159-174 | when every earlier arm fails to match and arm `i` matches, exactly arm `i`'s body runs |
| Interpret.CaseNoMatch | src/language/plaia/interpret.rs:159-174 | when no arm matches, the case leaves the state unchanged |
| Interpret.IfSemantics | plaia-language/src/language/plaia/ast.rs:140-156 | concretely, `if e s` runs `s` exactly when `e` evaluates to 1, is a no-op on any other integer and a type error on a non-integer |
| Interpret.BindFreshCell | src/language/plaia/interpret.rs:154-157 | binding a name to a freshly allocated cell keeps every binding of the current frame inside the heap |
| Interpret.ExecIgnoresTrace | src/language/plaia/concrete.rs:226-235 | with and without tracing, a statement has the same outcome and the same heap and frames; only the trace differs |
| Interpret.StepIgnoresTrace | src/language/plaia/concrete.rs:226-235 | the same for the nested-statement hook |
| Interpret.ExecBlockIgnoresTrace | src/language/plaia/concrete.rs:226-235 | the same for a statement list |
| Interpret.ExecCaseIgnoresTrace | src/language/plaia/concrete.rs:226-235 | the same for a list of case arms |
| Interpret.TracingTransparent | src/language/plaia/concrete.rs:212-235 | the tracing and the untraced hooks compute the same heap, frames and outcome |
| Interpret.TracedStepSnapshot | src/language/plaia/concrete.rs:226-235 | a traced step's first new trace entry is the heap and store as they were just before the statement, under its span |
| Interpret.PushFrameParams | src/language/plaia/concrete.rs:148-160 | after pushing distinct parameter names, each name evaluates to the value pushed for it |
| Interpret.DeclZeroStep | src/language/plaia/interpret.rs:145-153 | `var x = 0` in a valid state binds `x` to a fresh cell holding 0 |
| Interpret.DeclPointerStep | src/language/plaia/interpret.rs:145-153 | `var p = &x` stores the address of `x`'s cell in a fresh cell for `p` |
| Interpret.SubThroughStep | src/language/plaia/interpret.rs:138-144 | `*p = *p - 13` writes −13 into the cell `p` points to |
| Interpret.BlockOfThree | src/language/plaia/interpret.rs:124-135 | a three-statement block runs its statements one after the other |
| Interpret.PointerRun | src/language/plaia/interpret.rs:120-158 | the untraced pointer program leaves `x`'s cell holding −13 |
| Interpret.PointerScenario | src/language/plaia/interpret.rs:120-158 | the same result holds with or without tracing |
| Interpret.ArgAtEval | src/language/plaia/concrete.rs:53-56 | projecting index `i` of the argument vector yields the `i`-th argument |
| Interpret.SumArgsScenario | src/language/plaia/concrete.rs:252-291 | from the initial state for arguments 2 and 3, `var z = args.0 + args.1` binds `z` to cell 2 holding 5 |
| Signed.Op | src/language/plaia/signed.rs:20-43 | the table as written never creates an address: an address result is one of the operands |
| Signed.OpDefault | src/language/plaia/signed.rs:42 | the comparison, logic and projection operators always yield Unknown |
| Signed.AddTable | src/language/plaia/signed.rs:22-24 | equal signs add to themselves, Zero is a left and right identity, and every other pair gives Unknown |
| Signed.SubTable | src/language/plaia/signed.rs:26-30 | 0−P=N, 0−N=P, 0−0=0, P−N=P, N−P=N, and everything else is Unknown |
| Signed.MulTable | src/language/plaia/signed.rs:32-35 | Zero on either side gives Zero even against Unknown; Pos is a left identity; N×N=P, N×P=N; everything else is Unknown |
| Signed.DivTable | src/language/plaia/signed.rs:37-41 | an Unknown divisor gives Unknown, a Zero dividend Zero, x/P=x, N/N=P, P/N=N, and everything else is Unknown |
| Signed.FromLit | src/language/plaia/signed.rs:60-68 | literals as written map only to Pos or Zero, never to Neg: an integer is Pos exactly when it is greater than 0 (so negatives are Zero), true is Pos and false is Zero; on non-negative integers this is the exact sign |
| Signed.WrittenInstance | src/language/plaia/signed.rs:14-69 | the sign instance as written (`WrittenSignedValues`): fresh cells hold Zero, no value has a truth value, operators give `Op`'s table and literals `FromLit`'s sign, and unwrapping undoes address injection |
| Signed.WrittenHalfUnsound | src/language/plaia/signed.rs:39 | run by the engine, `var z = 1 / 2` stores Pos under the written instance and 0 concretely, and Pos does not describe 0; the corrected instance stores Unknown |
| Signed.SignedInstance | src/language/plaia/signed.rs:14-69 | the corrected sign instance (`SoundSignedValues`): as written except that operators give the corrected table `SoundOp` and literals `SoundFromLit`'s sign |
| Signed.UnwrapLoc | src/language/plaia/signed.rs:46-53 | unwrapping succeeds exactly on an address and returns it; a sign is a type error |
| Signed.LocRoundTrip | src/language/plaia/signed.rs:46-58 | unwrapping the value made from an address gives that address back |
| Signed.AddSound | src/language/plaia/signed.rs:22-24 | for all integers `m, n`, `m + n` is described by the table's sum of their signs |
| Signed.SubSound | src/language/plaia/signed.rs:26-30 | for all integers, `m − n` is described by the table's difference of their signs |
| Signed.MulSound | src/language/plaia/signed.rs:32-35 | for all integers, `m × n` is described by the table's product of their signs |
| Signed.DivUnsound | src/language/plaia/signed.rs:39 | the table's P/P=P is unsound: 1 and 2 are positive, 1/2 is 0 concretely, and 0 is not positive |
| Signed.FromLitNegativeUnsound | src/language/plaia/signed.rs:63-64 | the literal −1 is given the sign Zero, and Zero does not describe −1 |
| Signed.SoundOp | src/language/plaia/signed.rs:20-43 | the corrected table agrees with the written one except for ÷ of two non-zero signs, which it widens to Unknown |
| Signed.DivSound | src/language/plaia/signed.rs:37-41 | for all integers with a non-zero divisor, the truncated quotient is described by the corrected table's quotient of their signs |
| Signed.SoundFromLit | src/language/plaia/signed.rs:60-68 | the corrected literal abstraction describes the literal's concrete value, is the exact sign of an integer literal, and agrees with the written one except that negatives become Neg |
| Signed.OpSound | src/language/plaia/signed.rs:20-43 | every concrete integer operation that succeeds is described by the corrected table's result for the operands' signs |
| Signed.DenoteSound | src/language/plaia/signed.rs:20-43 | for any abstract operands describing the concrete ones, a successful concrete operation is described by the abstract one (which never fails) |
| Signed.FromLitSound | src/language/plaia/signed.rs:60-68 | every literal's abstraction describes its concrete value |
| Signed.EvalExprSound | src/language/plaia/interpret.rs:65-111 | with the corrected instance, if an expression evaluates concretely, in a signed heap and store describing the concrete ones, it evaluates abstractly to a describing value or stops on a type error |
| Signed.EvalLvalSound | src/language/plaia/interpret.rs:47-63 | with the corrected instance, if an lvalue resolves concretely, it resolves abstractly to the same address or stops on a type error |
| Signed.CaseStuck | src/language/plaia/interpret.rs:159-174 | with the corrected instance, under signs, a case with arms cannot decide a match and always stops |
| Signed.AssignSound | src/language/plaia/interpret.rs:138-144 | with the corrected instance, a successful concrete assignment is matched by an abstract one that keeps the states in correspondence, or the abstract run stops |
| Signed.VarDeclSound | src/language/plaia/interpret.rs:145-158 | the same for declarations with and without an initialiser |
| Signed.ExecSound | src/language/plaia/interpret.rs:113-177 | with the corrected instance, for every statement, a successful concrete run from corresponding states is matched by a successful abstract run to corresponding states, or the abstract run stops |
| Signed.StepSound | src/language/plaia/interpret.rs:113-177 | the same for the nested-statement hook, traced or not |
| Signed.ExecBlockSound | src/language/plaia/interpret.rs:121-136 | the same for a statement list |

## Left out

- The parser (`plaia-language/src/language/plaia/parse.rs`) wraps a generated parser whose grammar is not shown. It is not part of this model.
- `src/main.rs` is not part of this model. It is a demo driver that calls a commented-out function (`concrete_eval`) and calls `concrete_run` with the wrong arity.
- `src/language/plaia/ast.rs` is not part of this model. It is an unused, stale duplicate of the syntax tree.
- `concrete_run`'s printing of the trace and its slicing of the program text are output only. `ConcreteRun` stops after appending the final snapshot.
- `initial_state` parses its arguments from strings to 64-bit integers. Here the arguments are already integers, so a malformed argument (a panic there) cannot occur.
- All integers are unbounded. In the source, `i64` division overflow (`i64::MIN / -1`) panics in every build, and `+`, `−` and `×` overflow panics in debug builds and wraps in release builds. The model has neither the panic nor the wrap-around.
- Panics, `unwrap` failures, index panics and `todo!` become `Err` results carrying an `Error` tag. The source aborts with no recovery, and so does the model: every error propagates unchanged to the top.
- `Concrete.Machine.PopFrame` and `Concrete.ConcreteEvaluator.PopFrame` are the one exception: the `cur_frame -= 1` underflow panic is a precondition (`curFrame > 0`), not an error result. The engine never pops a frame, so no modelled run reaches it.
- `FunCall` and unary `Negate` are `todo!` in the source and evaluate to `Err(Unimplemented)`. So do wildcard and symbol patterns.
- The engine never calls the function-call convention (`return_loc`, `fn_decl`, `push_frame`, `pop_frame`). These members are modelled, but no statement uses them.
- `Concrete.ConcreteEvaluator.ReturnLoc` is the constant 0, so it has no contract beyond its body.
- The continuation-passing style, the `Box`ed closures and the recursion hooks are replaced by direct recursion. Each hook becomes a `tracing` flag.
- The trace is a ghost field of `ConcreteEvaluator`, since only printing ever reads it. Its entries store the current frame as a Dafny `map`, not a `HashMap`.
- The two files disagree on the interfaces. In `interpret.rs`, `do_match` takes yes/no continuations and there are no frame methods; in `concrete.rs`, `do_match` passes a `bool`. The model follows `interpret.rs`: `DoMatch` returns a `Result<bool>`, and the case rule picks the arm.
- The sign domain has no `is_true`. With no way to decide a literal match, a `case` with arms stops with `Unimplemented` under signs; the model invents no truth test for signs.
- The frame-push loop keeps no key order: a `HashMap` has none, and the model uses a `map`.
- `Interpret.AssignTwice`: idempotence of assignment is stated only when the second run's right side and left side evaluate as in the first. It is false in general, since `x = x + 1` run twice adds 2. `Interpret.AssignLiteralTwice` gives the unconditional case of a literal assigned to a variable.
- `Signed.EvalExprSound`: abstract evaluation may stop with a type error where the concrete one succeeds. An example is a sign used as a pointer, since the sign domain cannot unwrap it. Soundness is therefore stated as "describing result or stop", not "describing result".
- `Signed.SignedInstance`: the instance it describes, `SoundSignedValues`, is the corrected one (`SoundOp`, `SoundFromLit`), not `SignedValue`'s `op` and `from_lit` as written; those are `WrittenSignedValues` (`Signed.WrittenInstance`). The soundness lemmas (`Signed.EvalExprSound` through `Signed.ExecBlockSound`) are about the corrected instance only; the written one is not sound (`Signed.WrittenHalfUnsound`).
- `Signed.ExecSound`: the soundness theorem uses the corrected operator table and literal abstraction (`SoundOp`, `SoundFromLit`). The table as written is unsound for ÷ and for negative literals (see Findings).
- `Concrete.ConcreteEvaluator.PushFrame` states the new heap, frames and index field by field rather than as `Machine.PushFrame` of the old state. The two are the same values.

## Findings

| source | as written | input that shows it | evidently intended | confidence | as-written member | corrected member |
|---|---|---|---|---|---|---|
| src/language/plaia/signed.rs:39 | `x / Pos = x`, so Pos/Pos is Pos (also N/N=P and P/N=N at lines 40-41) | dividend 1 (Pos), divisor 2 (Pos): truncating division gives 0, which Pos does not describe | a quotient of two non-zero signs may be Zero, so it should be Unknown | not executed | Signed.DivUnsound | Signed.DivSound |
| src/language/plaia/signed.rs:63-64 | every integer literal that is not positive maps to Zero | the literal −1 gets the sign Zero | negative literals map to Neg | not executed | Signed.FromLitNegativeUnsound | Signed.SoundFromLit |
