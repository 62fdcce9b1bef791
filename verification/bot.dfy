/** The bot configuration record of the library: built by chained builder
    calls, then connected to its relays and run. */
module NostrBot {
  import opened Wrappers

  /** The secp256k1 keypair the bot signs with, held as an opaque value. */
  datatype KeyPair = KeyPair(secret: seq<bv8>)

  /** How relays are reached: directly or through an anonymising overlay.
      It selects a transport only. */
  datatype Network = Clearnet | Tor

  /** A user-supplied handler function, identified by name. */
  datatype Handler = Handler(name: string)

  /** `FunctorType`: a handler gets the event and the state (`Basic`), or
      also the text after the trigger (`Extra`). */
  datatype Functor = Basic(handler: Handler) | Extra(handler: Handler)

  datatype Command = Command(trigger: string, functor: Functor, description: Option<string>)

  datatype Profile = Profile(
    name: Option<string>,
    about: Option<string>,
    pictureUrl: Option<string>,
    introMessage: Option<string>)

  /** The outbound and inbound halves of one relay connection. */
  datatype Sink = Sink(relay: string)
  datatype Stream = Stream(relay: string)

  /** A `Sender` is a shared, lock-protected cell holding the sinks; `cell`
      identifies the allocation so that copies of the handle can be told
      apart from a fresh sender. */
  datatype Sender = Sender(cell: nat, sinks: seq<Sink>)

  /** A background future handed to `spawn`, identified opaquely. */
  datatype Task = Task(id: nat)

  datatype Bot = Bot(
    keypair: KeyPair,
    relays: seq<string>,
    network: Network,
    commands: seq<Command>,
    profile: Profile,
    sender: Sender,
    streams: Option<seq<Stream>>,
    toSpawn: seq<Task>)
  {
    predicate Connected() {
      streams.Some?
    }
  }

  /** `connect` asserts that at least one relay answered. */
  datatype Panic = AssertionFailed

  /** What `network::try_connect` returns for the bot's relays and network. */
  type Connector = (seq<string>, Network) -> (seq<Sink>, seq<Stream>)

  const NoProfile := Profile(None, None, None, None)

  /** The command `help` registers. */
  const HelpCommand := Command("!help", Extra(Handler("help_command")), Some("Show this help."))

  /** `new_sender`: a freshly allocated sender cell with no sinks. */
  function NewSender(cell: nat): (s: Sender)
    ensures s.cell == cell && |s.sinks| == 0
  {
    Sender(cell, [])
  }

  /** `Bot::new`: stores keypair, relays and network, with no commands, no
      profile fields, a fresh empty sender, no connection and nothing to
      spawn. */
  function New(keypair: KeyPair, relays: seq<string>, network: Network, senderCell: nat): (b: Bot)
    ensures b.keypair == keypair && b.relays == relays && b.network == network
    ensures |b.commands| == 0 && |b.toSpawn| == 0
    ensures b.profile == NoProfile
    ensures b.sender.cell == senderCell && |b.sender.sinks| == 0
    ensures !b.Connected()
  {
    Bot(keypair, relays, network, [], NoProfile, NewSender(senderCell), None, [])
  }

  /** `sender`: replaces the sender and nothing else. */
  function WithSender(b: Bot, s: Sender): (r: Bot)
    ensures r.sender == s
    ensures r.(sender := b.sender) == b
  {
    b.(sender := s)
  }

  /** `command`: appends to the command table and changes nothing else. */
  function AddCommand(b: Bot, c: Command): (r: Bot)
    ensures |r.commands| == |b.commands| + 1
    ensures r.commands[..|b.commands|] == b.commands && r.commands[|b.commands|] == c
    ensures r.(commands := b.commands) == b
  {
    b.(commands := b.commands + [c])
  }

  /** `set_name`: fills the name and nothing else. */
  function SetName(b: Bot, name: string): (r: Bot)
    ensures r.profile.name == Some(name)
    ensures r.(profile := r.profile.(name := b.profile.name)) == b
  {
    b.(profile := b.profile.(name := Some(name)))
  }

  /** `set_about`: fills the description and nothing else. */
  function SetAbout(b: Bot, about: string): (r: Bot)
    ensures r.profile.about == Some(about)
    ensures r.(profile := r.profile.(about := b.profile.about)) == b
  {
    b.(profile := b.profile.(about := Some(about)))
  }

  /** `set_picture`: fills the picture URL and nothing else. */
  function SetPicture(b: Bot, pictureUrl: string): (r: Bot)
    ensures r.profile.pictureUrl == Some(pictureUrl)
    ensures r.(profile := r.profile.(pictureUrl := b.profile.pictureUrl)) == b
  {
    b.(profile := b.profile.(pictureUrl := Some(pictureUrl)))
  }

  /** `set_intro_message`: fills the introduction and nothing else. */
  function SetIntroMessage(b: Bot, message: string): (r: Bot)
    ensures r.profile.introMessage == Some(message)
    ensures r.(profile := r.profile.(introMessage := b.profile.introMessage)) == b
  {
    b.(profile := b.profile.(introMessage := Some(message)))
  }

  /** `help`: appends one `Extra` command "!help" described as
      "Show this help." and changes nothing else. */
  function Help(b: Bot): (r: Bot)
    ensures |r.commands| == |b.commands| + 1
    ensures r.commands[..|b.commands|] == b.commands
    ensures var c := r.commands[|b.commands|];
      c.trigger == "!help" && c.functor.Extra? && c.description == Some("Show this help.")
    ensures r.(commands := b.commands) == b
  {
    AddCommand(b, HelpCommand)
  }

  /** `spawn`: appends one background task and changes nothing else. */
  function Spawn(b: Bot, t: Task): (r: Bot)
    ensures |r.toSpawn| == |b.toSpawn| + 1
    ensures r.toSpawn[..|b.toSpawn|] == b.toSpawn && r.toSpawn[|b.toSpawn|] == t
    ensures r.(toSpawn := b.toSpawn) == b
  {
    b.(toSpawn := b.toSpawn + [t])
  }

  /** `connect`: asks `try_connect` for the bot's relays and network and
      asserts that both returned collections are non-empty; then stores the
      sinks in the sender's existing cell and the streams in the bot. It does
      not look at whether the bot was connected before. */
  function Connect(b: Bot, tryConnect: Connector): (r: Result<Bot, Panic>)
    ensures var (sinks, streams) := tryConnect(b.relays, b.network);
      && (r.Success? <==> |sinks| > 0 && |streams| > 0)
      && (r.Success? ==> r.value.sender == Sender(b.sender.cell, sinks))
      && (r.Success? ==> r.value.streams == Some(streams))
    ensures r.Success? ==> r.value.(sender := b.sender, streams := b.streams) == b
  {
    var (sinks, streams) := tryConnect(b.relays, b.network);
    if |sinks| > 0 && |streams| > 0 then
      Success(b.(sender := b.sender.(sinks := sinks), streams := Some(streams)))
    else
      Failure(AssertionFailed)
  }

  /** What `really_run` is entered with. */
  datatype Running<S> = Running(bot: Bot, state: S)

  /** `run`: connects first exactly when the bot has no streams yet, then
      hands the bot and the state to the receive loop. */
  function Run<S>(b: Bot, state: S, tryConnect: Connector): (r: Result<Running<S>, Panic>)
    ensures r.Success? ==> r.value.bot.Connected() && r.value.state == state
    ensures b.Connected() ==> r == Success(Running(b, state))
    ensures !b.Connected() ==>
      var (sinks, streams) := tryConnect(b.relays, b.network);
      && (r.Success? <==> |sinks| > 0 && |streams| > 0)
      && (r.Success? ==> r.value.bot.sender.sinks == sinks && r.value.bot.streams == Some(streams))
    ensures r.Success? ==> r.value.bot.(sender := b.sender, streams := b.streams) == b
    ensures r.Success? ==> r.value.bot.sender.cell == b.sender.cell
  {
    if b.streams.None? then
      match Connect(b, tryConnect)
      case Success(c) => Success(Running(c, state))
      case Failure(e) => Failure(e)
    else
      Success(Running(b, state))
  }

  /** One builder call. */
  datatype Step =
    | UseSender(sender: Sender)
    | AddCmd(command: Command)
    | Name(name: string)
    | About(about: string)
    | Picture(url: string)
    | Intro(message: string)
    | AddHelp
    | SpawnTask(task: Task)

  function Apply(b: Bot, s: Step): Bot {
    match s
    case UseSender(sender) => WithSender(b, sender)
    case AddCmd(c) => AddCommand(b, c)
    case Name(name) => SetName(b, name)
    case About(about) => SetAbout(b, about)
    case Picture(url) => SetPicture(b, url)
    case Intro(message) => SetIntroMessage(b, message)
    case AddHelp => Help(b)
    case SpawnTask(t) => Spawn(b, t)
  }

  /** A chain of builder calls, first call first. */
  function Build(b: Bot, steps: seq<Step>): Bot
    decreases |steps|
  {
    if |steps| == 0 then b else Build(Apply(b, steps[0]), steps[1..])
  }

  /** The commands a chain registers, in call order. */
  function Registered(steps: seq<Step>): seq<Command>
    decreases |steps|
  {
    if |steps| == 0 then []
    else
      var c := match steps[0]
        case AddCmd(c) => [c]
        case AddHelp => [HelpCommand]
        case _ => [];
      c + Registered(steps[1..])
  }

  /** The tasks a chain spawns, in call order. */
  function Spawned(steps: seq<Step>): seq<Task>
    decreases |steps|
  {
    if |steps| == 0 then []
    else (if steps[0].SpawnTask? then [steps[0].task] else []) + Spawned(steps[1..])
  }

  /** A builder chain only ever appends: the command table grows by the
      registered commands in call order, the spawn list by the spawned tasks,
      and identity, relays, network and connection state stay as they were. */
  lemma {:induction false} BuildAppendsInOrder(b: Bot, steps: seq<Step>)
    ensures Build(b, steps).commands == b.commands + Registered(steps)
    ensures Build(b, steps).toSpawn == b.toSpawn + Spawned(steps)
    ensures Build(b, steps).keypair == b.keypair
    ensures Build(b, steps).relays == b.relays
    ensures Build(b, steps).network == b.network
    ensures Build(b, steps).streams == b.streams
    decreases |steps|
  {
    if |steps| > 0 {
      var a := Apply(b, steps[0]);
      BuildAppendsInOrder(a, steps[1..]);
      assert b.commands + Registered(steps) == a.commands + Registered(steps[1..]);
      assert b.toSpawn + Spawned(steps) == a.toSpawn + Spawned(steps[1..]);
    }
  }

  /** A bot built from `new` by any builder chain reaches the receive loop
      exactly when `try_connect` returns sinks and streams, with the
      registered commands in call order and the returned connections. */
  lemma BuiltBotRuns<S>(keypair: KeyPair, relays: seq<string>, network: Network, cell: nat,
                        steps: seq<Step>, state: S, tryConnect: Connector)
    ensures var b := Build(New(keypair, relays, network, cell), steps);
      var r := Run(b, state, tryConnect);
      var (sinks, streams) := tryConnect(relays, network);
      && (r.Success? <==> |sinks| > 0 && |streams| > 0)
      && (r.Success? ==> r.value.bot.commands == Registered(steps))
      && (r.Success? ==> r.value.bot.toSpawn == Spawned(steps))
      && (r.Success? ==> r.value.bot.keypair == keypair && r.value.bot.relays == relays)
      && (r.Success? ==> r.value.bot.sender.sinks == sinks && r.value.bot.streams == Some(streams))
  {
    BuildAppendsInOrder(New(keypair, relays, network, cell), steps);
  }
}
