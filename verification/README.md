# nostr-bot: builder, lifecycle and poll tally, modelled in Dafny

This project models two sequential pieces of the `nostr_bot` crate, a framework for bots on the
Nostr relay network:

- **The bot record** (`src/lib.rs`). `Bot` is a configuration value that changes only through
  builder calls: `command` and `help` append to an ordered command table, the `set_*` calls each
  fill one profile field, `sender` replaces the shared sender, and `spawn` appends a background
  task. `connect` asks the network layer for sinks and streams, asserts that both are non-empty,
  and stores them. `run` connects only when there are no streams yet, then enters the receive loop.
  The model is module `NostrBot` in `bot.dfy`.
- **The poll example's tally** (`examples/poll.rs`). `Votes` holds two `u64` counters. It is
  loaded from a file holding `"<yes>:<no>"`, and a missing or unreadable file gives `0:0`.
  `add_yes` and `add_no` increment a counter and rewrite the file. The rewrite opens the file
  without truncating it, so it only replaces a prefix. The model is module `Poll` in `poll.dfy`,
  which uses `Decimal` (`u64` formatting and `str::parse::<u64>`, `decimal.dfy`) and `Text`
  (`str::split` on one character and its inverse, `text.dfy`). `wrappers.dfy` holds `Option`
  and `Result`.

Every operation is a pure function. An operation that panics in Rust returns `Failure(reason)`.
Inputs from outside become parameters:

- the result of `network::try_connect` is a `Connector` function of the relays and network;
- the file system is a `FileState`: `Missing` (absent, and creatable by the write),
  `Holds(text)` (readable and writable), `ReadOnly(text)` (readable, but opening it for writing
  fails), `WriteOnly(text)` (writable, but reading it fails) or `Inaccessible` (neither readable
  nor openable for writing, including an absent file whose directory forbids creating it);
- the identity of the sender's `Arc` allocation is a number `cell`.

The central poll property: counts only grow, and a larger number never has fewer decimal digits.
So when the file holds the previous serialisation, the non-truncating rewrite leaves exactly the
new serialisation (`AddYesKeepsSynced`). Over any run of handlers, the file read back gives the
in-memory counts (`HandleAllTally`, `ReloadAfterRun`). The guarantee depends on the file holding
the canonical text. A file the program did not write, such as `+5:3`, is accepted by the parser.
After one yes vote that file reads `6:33`, as `StaleDigitSurvives` shows.

## Model

| member | source | states |
|---|---|---|
| NostrBot.New | src/lib.rs:55-71 | keypair, relays and network are stored unchanged; the command table, spawn list and profile are empty; the sender is a fresh cell with no sinks; the bot is unconnected |
| NostrBot.NewSender | src/lib.rs:135-137 | a new sender has the given cell and no sinks |
| NostrBot.WithSender | src/lib.rs:73-76 | the sender becomes the argument and every other field is unchanged |
| NostrBot.AddCommand | src/lib.rs:78-81 | the table grows by one; earlier entries keep their order; the argument is last; no other field changes |
| NostrBot.SetName | src/lib.rs:83-86 | the profile name becomes `Some(name)`; every other field and profile field is unchanged |
| NostrBot.SetAbout | src/lib.rs:88-91 | the profile description becomes `Some(about)`; nothing else changes |
| NostrBot.SetPicture | src/lib.rs:93-96 | the picture URL becomes `Some(url)`; nothing else changes |
| NostrBot.SetIntroMessage | src/lib.rs:98-101 | the intro message becomes `Some(message)`; nothing else changes |
| NostrBot.Help | src/lib.rs:103-109 | appends exactly one `Extra` command with trigger "!help" and description "Show this help." after the existing entries; nothing else changes |
| NostrBot.Spawn | src/lib.rs:111-114 | appends exactly one task to the spawn list; nothing else changes |
| NostrBot.Connect | src/lib.rs:116-123 | succeeds if and only if `try_connect` returns non-empty sinks and non-empty streams; then the existing sender cell holds those sinks, `streams` is `Some` of those streams, and nothing else changes |
| NostrBot.Run | src/lib.rs:125-132 | an already connected bot enters the loop unchanged; an unconnected one is connected first, and the run fails exactly when that connect fails; the loop is only entered in the connected state, with the caller's state; keypair, relays, network, commands, profile, spawn list and sender cell reach it unchanged |
| NostrBot.BuildAppendsInOrder | src/lib.rs:73-114 | any chain of builder calls appends the registered commands and spawned tasks in call order; keypair, relays, network and connection state are untouched |
| NostrBot.BuiltBotRuns | src/lib.rs:55-132 | a bot built from `new` by any chain reaches the receive loop if and only if `try_connect` returns sinks and streams; it then holds the chain's commands and spawned tasks in order, the given keypair and relays, and the returned connections |
| Decimal.Show | examples/poll.rs:55 | the `{}` text of a count is a non-empty digit string that denotes the count; it starts with '0' exactly for zero, and zero is written "0" |
| Decimal.ShowLengthMonotone | examples/poll.rs:39-55 | a larger count never has fewer decimal digits |
| Decimal.Accumulate | examples/poll.rs:19-20 | the checked digit loop succeeds exactly on all-digit text whose value fits in `u64`, and yields that value |
| Decimal.ParseU64 | examples/poll.rs:19-20 | `parse::<u64>` accepts exactly an optional '+' followed by one or more digits denoting at most 2^64-1, and returns their value; it reports `Empty` exactly for the empty text |
| Decimal.ShowParses | examples/poll.rs:19-20 | parsing the decimal text of any `u64` gives that number back |
| Text.Split | examples/poll.rs:15 | `split(":")` yields at least one part, no part contains ':', and joining the parts with ':' gives back the text |
| Text.SplitJoin | examples/poll.rs:15 | splitting inverts joining any non-empty list of ':'-free parts |
| Text.SplitAfterField | examples/poll.rs:15 | a text starting with a ':'-free field and ':' splits into that field followed by the split of the rest |
| Poll.FromFile | examples/poll.rs:12-37 | question and filename pass through; a missing or unreadable file gives 0 and 0; a readable text with no ':' panics |
| Poll.Serialize | examples/poll.rs:55 | the written text splits on ':' into exactly two fields, the decimal yes and no counts |
| Poll.FromFileFields | examples/poll.rs:15-20 | for text `a:b` or `a:b:...`, loading succeeds if and only if both `a` and `b` are `u64` texts; it yields their values, and everything from the second ':' on is ignored |
| Poll.ParseSerialized | examples/poll.rs:15-55 | round trip: loading the text written for some votes gives back the same yes and no counts |
| Poll.Overwrite | examples/poll.rs:50-55 | a write without truncation replaces the first characters and keeps any later old characters at their positions |
| Poll.UpdateFile | examples/poll.rs:49-56 | fails exactly when the file cannot be opened for writing; the file then starts with `"<yes>:<no>"` and keeps its read access (a created file is readable); for an existing file its length is the longer of the old and new texts, and every old character past the new text stays in place; a missing file, or a readable one no longer than the new text, then holds exactly that text |
| Poll.AddYes | examples/poll.rs:39-42 | yes grows by exactly 1 and nothing else in the tally changes; this panics at the `u64` maximum or when the file cannot be opened for writing; the rewritten file starts with the new text and keeps any longer old tail |
| Poll.AddNo | examples/poll.rs:44-47 | no grows by exactly 1 and nothing else in the tally changes; this panics at the `u64` maximum or when the file cannot be opened for writing; the rewritten file starts with the new text and keeps any longer old tail |
| Poll.AddYesKeepsSynced | examples/poll.rs:39-56 | from a missing file or a file holding exactly the old serialisation, `add_yes` leaves exactly the new serialisation |
| Poll.AddNoKeepsSynced | examples/poll.rs:44-56 | the same for `add_no` |
| Poll.StaleDigitSurvives | examples/poll.rs:49-55 | a file holding "+5:3" loads as 5 and 3; after one yes vote it holds "6:33" |
| Poll.ReadOnlyVotePanics | examples/poll.rs:12-56 | a read-only file holding the counts loads them, and the first vote then panics when the file is opened for writing |
| Poll.UncreatableVotePanics | examples/poll.rs:12-56 | a file that can be neither read nor created loads as 0 and 0, and the first yes or no vote panics when the file is opened |
| Poll.WriteOnlyLosesCounts | examples/poll.rs:12-56 | a write-only file holding "12:7" loads as 0 and 0; after one yes vote it holds "1:07" and is still unreadable |
| Poll.Handle | examples/poll.rs:75-99 | `results` leaves the tally and file unchanged; `yes` and `no` apply exactly one `add_yes` or `add_no`; every reply is formatted from the tally after the handler |
| Poll.HandleAllTally | examples/poll.rs:75-99 | from a state the program produces, any run of handlers that stays within `u64` succeeds; it adds exactly the number of yes and no votes, and keeps the file synced once written |
| Poll.ReloadAfterRun | examples/poll.rs:12-56 | after a run with at least one vote, loading the file gives back the in-memory counts |

## Left out

- `network::try_connect`, real sinks and streams, and the transport choice: network I/O. The
  connect result is the abstract `Connector` parameter. `Network`'s variants other than
  `Clearnet` are assumed, because `network.rs` is not part of this model.
- The `bot`, `nostr`, `network` and `utils` modules are not part of this model. This covers
  `Command::new`/`desc` (taken to set the trigger, functor and description), `Profile::new`
  (taken to leave every field empty), command dispatch and prefix matching, `help_command`,
  `format_reply`, `really_run` and `parse_config`.
- `wrap_state`: in the model a state is a plain value, so wrapping it in `Arc<Mutex<_>>` is the
  identity and has no member. The `wrap!`/`wrap_extra!` macros and boxed closures become the
  `Basic | Extra` datatype with an opaque `Handler`.
- tokio tasks, `Arc<Mutex<_>>` locking, and the aliasing of a `Sender` handle shared with other
  tasks: concurrency. The model tracks the bot's own view, and the sender's `cell` records which
  allocation it is.
- Secp256k1 keypairs, signing and event identifiers: foreign cryptography. `KeyPair` is opaque.
- `format_results`: its percentages use `f32` arithmetic. A reply is modelled as the question
  and counts it is formatted from.
- `init_logger`, `main`, reading the secret file and real file-system calls: plumbing. A write
  error after a successful open is not modelled.
- Poll.Overwrite and Poll.UpdateFile count positions in characters, while `write!` replaces
  bytes. The two agree only when the overwritten prefix is ASCII. Every state the program itself
  writes is ASCII, and so is every state `HandleAllTally` covers. For a file such as "9:9:é", the
  model's kept tail can differ from the program's: the program can split a multi-byte character
  and leave the file unreadable.
- A writable file whose bytes are not valid UTF-8 is not modelled. `read_to_string` fails on it,
  so loading gives 0 and 0, but the write keeps its tail of old bytes. File contents are modelled
  as characters, so that tail cannot be represented. The synced-file guarantees therefore cover
  only missing files and files holding text.
- Poll.AddYes: does not model release-build wrap-around of `+= 1`; only the debug-build overflow
  panic is modelled. The same applies to Poll.AddNo.
- Poll.Handle: what stays in memory after a handler panics (the count is incremented before the
  file is opened) is not modelled; a panic is just `Failure`.
- The poll example's `main` registers commands through `add_command`, `nostr_bot::wrap` and a
  synchronous `lock().unwrap()`. These do not match `src/lib.rs`, so its bot set-up is not modelled.
- Decimal.ParseU64: follows current Rust, where a lone "+" is `InvalidDigit`; older releases
  reported `Empty`. Either way the result is a panic in `from_file`.
