# Funnybot, modelled in Dafny

Funnybot is a "poor man's mock helper" for Rust. A hand-written mock holds one
`FunnyBot<A, R>` per mocked method and forwards each intercepted call to it.
The recorder then does two things:

- it appends the call's argument to an append-only log;
- it pulls the next pre-programmed result from a one-way result source.

The result source is chosen at construction:

- `new`: an arbitrary iterator;
- `repeat`: one value, forever;
- `from_list`: a finite list;
- `from_single`: a one-element list;
- `repeat_with`: a generator closure.

Pulling past the end of a finite source is a fatal error ("missing
pre-programmed value for call").

`funnybot.dfy` holds one module, `Funnybot`, in two layers:

- **Specification on values.** `Source` is the result source, read as a
  cursor: `Pull(s, n)` is what the n-th pull yields. `BotState` is the
  recorder's abstract state: the log, the source, the number of values pulled,
  and whether a pull has failed. `Step` is one call. `Run` is a sequence of
  calls. `NthOutcome` is a reference definition of the j-th call's outcome in
  terms of the source alone. `Consistent` is the invariant every reachable
  state keeps.
- **The recorder itself.** `FunnyBot` is a class whose fields the methods
  update in place:
  - `arguments` is the log;
  - `results` is the source (named `returns` in Rust, a reserved word in Dafny);
  - `pulled` is the cursor;
  - `exhausted` marks the terminal failed state.

  It has one named constructor per Rust constructor. `Call` has `modifies this`
  and is proved equal to `Step` on the abstract state.

A fatal panic on exhaustion becomes the outcome `Exhausted`. The argument is
still logged first, because in the source the push precedes the pull. In Rust
the panic poisons the result lock while its write guard is held, so every later
call still pushes its argument and then fails. The model therefore treats
exhaustion as terminal.

`SingleValueClient` is a usage example of `from_single` at the object level. It
builds a recorder over one value, calls it twice, and asserts that the first call
returns the value, the second fails, and both arguments are logged.

## Model

| member | source | states |
|---|---|---|
| Funnybot.FreshIsConsistent | src/lib.rs:41-46 | a freshly built recorder has an empty log, its cursor at 0, and satisfies the recorder invariant |
| Funnybot.StepPreservesConsistent | src/lib.rs:72-80 | one call keeps the invariant: each successful pull matches one logged argument, and a failed recorder logged the argument of the call whose pull found nothing |
| Funnybot.LogAppends | src/lib.rs:73 | any run of calls appends exactly its arguments to the log, in call order, leaving earlier entries unchanged; the source is never replaced, and each call yields one outcome |
| Funnybot.ExhaustedIsTerminal | src/lib.rs:75-79 | once a pull has failed, every later call fails and nothing more is pulled |
| Funnybot.RunFromFresh | src/lib.rs:41-80 | after any calls on a fresh recorder, the log equals the calls in order and the j-th outcome is the source's j-th value (exhaustion once the source has run dry); the recorder has failed iff the source could not supply every call; otherwise the number of pulls equals the log length |
| Funnybot.RepeatAlwaysReturns | src/lib.rs:29-32 | `repeat(v)`: any number of calls all return `v`, and none fails |
| Funnybot.GeneratedReturnsInOrder | src/lib.rs:62-65 | `repeat_with(f)`: the n-th call returns the generator's n-th value, and the source never runs dry |
| Funnybot.ListedReturnsInOrder | src/lib.rs:55-60 | `from_list(vs)`: call i returns `vs[i]` while i < \|vs\|, and every later call fails; the recorder has failed iff there were more calls than values |
| Funnybot.SingleReturnsOnce | src/lib.rs:48-53 | `from_single(v)`: the first call returns `v`, the second fails, and both arguments are logged |
| Funnybot.FunnyBot.New | src/lib.rs:40-46 | `new`: results come from the given iterator; log empty, cursor 0 |
| Funnybot.FunnyBot.Repeat | src/lib.rs:29-32 | `repeat`: the source repeats `elt`; log empty, cursor 0 |
| Funnybot.FunnyBot.FromSingle | src/lib.rs:48-53 | `from_single`: the source is the one-element list `[elt]`, as in `from_list` |
| Funnybot.FunnyBot.FromList | src/lib.rs:55-60 | `from_list`: the source is the given list; log empty, cursor 0 |
| Funnybot.FunnyBot.RepeatWith | src/lib.rs:62-65 | `repeat_with`: the source is the generator; log empty, cursor 0 |
| Funnybot.FunnyBot.Call | src/lib.rs:72-80 | appends `a` to the log, even when the pull fails; keeps the source; keeps the invariant; the new state and the outcome are exactly one `Step` |
| Funnybot.FunnyBot.Args | src/lib.rs:87-90 | returns the log as it stands; changes neither the log nor the result cursor |
| Funnybot.FunnyBot.IntoArgs | src/lib.rs:82-85 | returns the recorded log |

## Left out

- Locking is not modelled: the `RwLock`s, concurrent interleavings of `call`, and the `Send`/`Sync` bounds (src/lib.rs:13-21). The model is sequential.
- Lock poisoning and the `unwrap` failures on lock acquisition are not modelled. After an exhausting call, the model's terminal `Exhausted` outcome stands in for the source's later poisoned-lock panics. The model does not distinguish the two panic messages.
- The panic message text and the lifetime `'a` are left out.
- `args` returns a plain snapshot of the log, not a read guard with a lifetime.
- FunnyBot.IntoArgs: consuming the recorder is not modelled, so it returns the same snapshot as `args` and later calls stay possible.
- `new` takes an iterator. It is modelled as a function from the pull index to an optional value. This covers any iterator whose n-th `next()` depends only on n.
- The generator given to `repeat_with` is modelled by the values of its successive invocations. Any side effects of the closure are not modelled.
- The mocks that call the recorder are outside the library and are not part of this model.
