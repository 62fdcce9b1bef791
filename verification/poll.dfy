/** The poll bot example: a yes/no tally kept in memory and persisted as the
    text "<yes>:<no>" in a file that is rewritten without truncation. */
module Poll {
  import opened Wrappers
  import opened Decimal
  import opened Text

  datatype Votes = Votes(question: string, yes: u64, no: u64, filename: string)

  /** The file named by `Votes.filename`, as far as the tally can see it:
      absent but creatable; holding text it can read and write; holding text
      it can read but not open for writing; holding text it can open for
      writing but not read; or neither readable nor openable for writing,
      which covers both a present file without permissions and an absent one
      whose directory does not allow creating it. */
  datatype FileState =
    | Missing
    | Holds(text: string)
    | ReadOnly(text: string)
    | WriteOnly(text: string)
    | Inaccessible

  /** `read_to_string` returns the file's text. */
  predicate CanRead(f: FileState) {
    f.Holds? || f.ReadOnly?
  }

  /** `OpenOptions::new().write(true).create(true).open` succeeds. */
  predicate CanWrite(f: FileState) {
    f.Missing? || f.Holds? || f.WriteOnly?
  }

  /** The file exists and has contents. */
  predicate HasText(f: FileState) {
    f.Holds? || f.ReadOnly? || f.WriteOnly?
  }

  /** Why the example panics. */
  datatype Panic =
    | ParseUnwrap(error: ParseError)          // `parse::<u64>().unwrap()` on an `Err`
    | IndexOutOfBounds(index: nat, len: nat)  // `s[1]` when the split has one part
    | Overflow                                // `u64` `+= 1` past the maximum
    | OpenFailed                              // `open(..).unwrap()` on an `Err`

  /** The in-memory tally together with the file it is persisted to. */
  datatype Poll = Poll(votes: Votes, file: FileState)

  /** `Votes::from_file`: a readable file is split on ':' and its first two
      parts are parsed as `u64` (first the yes part, then the index of the
      second part is taken, then the no part); a file that cannot be read
      gives zero counts. */
  function FromFile(question: string, filename: string, file: FileState): (r: Result<Votes, Panic>)
    ensures r.Success? ==> r.value.question == question && r.value.filename == filename
    ensures !CanRead(file) ==> r == Success(Votes(question, 0, 0, filename))
    ensures CanRead(file) && ':' !in file.text ==> r.Failure?
  {
    if CanRead(file) then
      var parts := Split(file.text, ':');
      (match ParseU64(parts[0])
       case Failure(e) => Failure(ParseUnwrap(e))
       case Success(yes) =>
         if |parts| < 2 then
           Failure(IndexOutOfBounds(1, |parts|))
         else
           match ParseU64(parts[1])
           case Failure(e) => Failure(ParseUnwrap(e))
           case Success(no) => Success(Votes(question, yes, no, filename)))
    else
      Success(Votes(question, 0, 0, filename))
  }

  /** The text `update_file` writes: `write!(file, "{}:{}", yes, no)`. It
      consists of exactly two ':'-free fields, the decimal counts. */
  function Serialize(v: Votes): (s: string)
    ensures Split(s, ':') == [Show(v.yes), Show(v.no)]
  {
    var s := Show(v.yes) + ":" + Show(v.no);
    SplitJoin([Show(v.yes), Show(v.no)], ':');
    assert Join([Show(v.yes), Show(v.no)], ':') == s;
    s
  }

  /** Writing `w` at offset 0 of a file holding `prior` without truncating
      it: the first `|w|` characters become `w`, any later ones survive. */
  function Overwrite(prior: string, w: string): (r: string)
    ensures |r| == if |w| < |prior| then |prior| else |w|
    ensures forall i :: 0 <= i < |r| ==> r[i] == if i < |w| then w[i] else prior[i]
  {
    if |w| < |prior| then w + prior[|w|..] else w
  }

  /** After writing `w` over `prior`, the result is as long as the longer of
      the two and every old character past `w` is still in place. */
  predicate Keeps(prior: string, w: string, r: string) {
    && |r| == (if |prior| < |w| then |w| else |prior|)
    && forall i :: |w| <= i < |prior| ==> r[i] == prior[i]
  }

  /** `update_file`: open for writing, creating the file when absent and
      keeping its old contents otherwise, and write the serialised counts at
      the start. Writing does not change who may read the file. */
  function UpdateFile(v: Votes, file: FileState): (r: Result<FileState, Panic>)
    ensures r.Success? <==> CanWrite(file)
    ensures r.Success? ==> HasText(r.value) && Serialize(v) <= r.value.text
    ensures r.Success? ==> if file.WriteOnly? then r.value.WriteOnly? else r.value.Holds?
    ensures file.Missing? ==> r == Success(Holds(Serialize(v)))
    ensures file.Holds? && |file.text| <= |Serialize(v)| ==> r == Success(Holds(Serialize(v)))
    ensures file.Holds? || file.WriteOnly? ==> r.Success? && Keeps(file.text, Serialize(v), r.value.text)
  {
    match file
    case Missing => Success(Holds(Serialize(v)))
    case Holds(prior) => Success(Holds(Overwrite(prior, Serialize(v))))
    case WriteOnly(prior) => Success(WriteOnly(Overwrite(prior, Serialize(v))))
    case _ => Failure(OpenFailed)
  }

  /** `add_yes`: increment the yes count (panicking at the `u64` maximum),
      then rewrite the file. */
  function AddYes(p: Poll): (r: Result<Poll, Panic>)
    ensures r.Success? <==> p.votes.yes < U64_MAX && CanWrite(p.file)
    ensures p.votes.yes == U64_MAX ==> r == Failure(Overflow)
    ensures r.Success? ==> r.value.votes.yes == p.votes.yes + 1
    ensures r.Success? ==> r.value.votes.(yes := p.votes.yes) == p.votes
    ensures r.Success? ==> HasText(r.value.file) && Serialize(r.value.votes) <= r.value.file.text
    ensures r.Success? ==> if p.file.WriteOnly? then r.value.file.WriteOnly? else r.value.file.Holds?
    ensures r.Success? && (p.file.Holds? || p.file.WriteOnly?) ==>
      Keeps(p.file.text, Serialize(r.value.votes), r.value.file.text)
  {
    if p.votes.yes == U64_MAX then
      Failure(Overflow)
    else
      var v := p.votes.(yes := p.votes.yes + 1);
      match UpdateFile(v, p.file)
      case Success(f) => Success(Poll(v, f))
      case Failure(e) => Failure(e)
  }

  /** `add_no`: the same for the no count. */
  function AddNo(p: Poll): (r: Result<Poll, Panic>)
    ensures r.Success? <==> p.votes.no < U64_MAX && CanWrite(p.file)
    ensures p.votes.no == U64_MAX ==> r == Failure(Overflow)
    ensures r.Success? ==> r.value.votes.no == p.votes.no + 1
    ensures r.Success? ==> r.value.votes.(no := p.votes.no) == p.votes
    ensures r.Success? ==> HasText(r.value.file) && Serialize(r.value.votes) <= r.value.file.text
    ensures r.Success? ==> if p.file.WriteOnly? then r.value.file.WriteOnly? else r.value.file.Holds?
    ensures r.Success? && (p.file.Holds? || p.file.WriteOnly?) ==>
      Keeps(p.file.text, Serialize(r.value.votes), r.value.file.text)
  {
    if p.votes.no == U64_MAX then
      Failure(Overflow)
    else
      var v := p.votes.(no := p.votes.no + 1);
      match UpdateFile(v, p.file)
      case Success(f) => Success(Poll(v, f))
      case Failure(e) => Failure(e)
  }

  /** The file holds exactly the serialisation of the in-memory counts. */
  predicate Synced(p: Poll) {
    p.file == Holds(Serialize(p.votes))
  }

  /** The states the program itself produces: no file yet, or a synced one. */
  predicate Canonical(p: Poll) {
    p.file.Missing? || Synced(p)
  }

  /** Round trip: the text `update_file` writes is read back by `from_file`
      as the same counts. */
  lemma ParseSerialized(v: Votes)
    ensures FromFile(v.question, v.filename, Holds(Serialize(v))) == Success(v)
  {
    ShowParses(v.yes);
    ShowParses(v.no);
  }

  /** `from_file` on a text of the form a:b or a:b:... reads exactly the two
      fields a and b; anything from the second ':' on is ignored. */
  lemma FromFileFields(question: string, filename: string, a: string, b: string, rest: string)
    requires ':' !in a && ':' !in b
    requires rest == "" || rest[0] == ':'
    ensures var r := FromFile(question, filename, Holds(a + ":" + b + rest));
      && (r.Success? <==> IsU64Text(a) && IsU64Text(b))
      && (r.Success? ==> r.value.yes == Value(Magnitude(a)) && r.value.no == Value(Magnitude(b)))
  {
    var text := a + ":" + b + rest;
    if rest == "" {
      SplitJoin([a, b], ':');
      assert Join([a, b], ':') == text;
    } else {
      assert text == a + [':'] + (b + [':'] + rest[1..]);
      SplitAfterField(a, b + [':'] + rest[1..], ':');
      SplitAfterField(b, rest[1..], ':');
    }
  }

  /** Because a count only grows, the new serialisation is never shorter
      than the old one, so a non-truncating rewrite of a synced file leaves
      exactly the new serialisation: no stale characters survive. */
  lemma {:induction false} AddYesKeepsSynced(p: Poll)
    requires Canonical(p) && p.votes.yes < U64_MAX
    ensures AddYes(p).Success? && Synced(AddYes(p).value)
  {
    var v := p.votes.(yes := p.votes.yes + 1);
    ShowLengthMonotone(p.votes.yes, v.yes);
    assert |Serialize(p.votes)| <= |Serialize(v)|;
  }

  lemma {:induction false} AddNoKeepsSynced(p: Poll)
    requires Canonical(p) && p.votes.no < U64_MAX
    ensures AddNo(p).Success? && Synced(AddNo(p).value)
  {
    var v := p.votes.(no := p.votes.no + 1);
    ShowLengthMonotone(p.votes.no, v.no);
    assert |Serialize(p.votes)| <= |Serialize(v)|;
  }

  /** The guarantee needs the file to hold the canonical text: a file the
      program did not write, such as "+5:3", is read as 5 and 3, but after
      one yes vote the shorter "6:3" leaves the old last digit behind. */
  lemma StaleDigitSurvives()
    ensures FromFile("q", "votes", Holds("+5:3")) == Success(Votes("q", 5, 3, "votes"))
    ensures AddYes(Poll(Votes("q", 5, 3, "votes"), Holds("+5:3")))
            == Success(Poll(Votes("q", 6, 3, "votes"), Holds("6:33")))
  {
    ReadSigned();
    var w := Serialize(Votes("q", 6, 3, "votes"));
    ShowSmall(6);
    ShowSmall(3);
    assert w == "6:3";
    var prior := "+5:3";
    assert prior[3..] == "3";
    assert Overwrite(prior, w) == w + prior[3..] == "6:33";
    assert UpdateFile(Votes("q", 6, 3, "votes"), Holds(prior)) == Success(Holds("6:33"));
    var p := Poll(Votes("q", 5, 3, "votes"), Holds(prior));
    assert p.votes.(yes := p.votes.yes + 1) == Votes("q", 6, 3, "votes");
  }

  /** A one-digit number is shown as that digit; used by the worked examples. */
  lemma ShowSmall(n: nat)
    requires n < 10
    ensures Show(n) == [Digit(n)]
  {
  }

  /** The load half of `StaleDigitSurvives`. */
  lemma ReadSigned()
    ensures FromFile("q", "votes", Holds("+5:3")) == Success(Votes("q", 5, 3, "votes"))
  {
    FromFileFields("q", "votes", "+5", "3", "");
    assert "+5" + ":" + "3" + "" == "+5:3";
    assert Magnitude("+5") == "5";
    assert "5"[..0] == [];
    assert "3"[..0] == [];
    assert Value("5") == 5 && Value("3") == 3;
  }

  /** A file that loads but cannot be opened for writing keeps its counts on
      load, and the first vote panics in `update_file`. */
  lemma ReadOnlyVotePanics(v: Votes)
    requires v.yes < U64_MAX
    ensures FromFile(v.question, v.filename, ReadOnly(Serialize(v))) == Success(v)
    ensures AddYes(Poll(v, ReadOnly(Serialize(v)))) == Failure(OpenFailed)
  {
    ParseSerialized(v);
  }

  /** A file that can be neither read nor created, such as a missing file in
      a read-only directory, loads as 0 and 0, and the first vote panics when
      `update_file` opens it. */
  lemma UncreatableVotePanics(question: string, filename: string)
    ensures FromFile(question, filename, Inaccessible) == Success(Votes(question, 0, 0, filename))
    ensures AddYes(Poll(Votes(question, 0, 0, filename), Inaccessible)) == Failure(OpenFailed)
    ensures AddNo(Poll(Votes(question, 0, 0, filename), Inaccessible)) == Failure(OpenFailed)
  {
  }

  /** A file the program can write but not read loads as 0 and 0, and the
      first vote writes over the start of the old counts: "12:7" becomes
      "1:07", which still cannot be read back. */
  lemma WriteOnlyLosesCounts()
    ensures FromFile("q", "votes", WriteOnly("12:7")) == Success(Votes("q", 0, 0, "votes"))
    ensures AddYes(Poll(Votes("q", 0, 0, "votes"), WriteOnly("12:7")))
            == Success(Poll(Votes("q", 1, 0, "votes"), WriteOnly("1:07")))
  {
    var w := Serialize(Votes("q", 1, 0, "votes"));
    ShowSmall(1);
    ShowSmall(0);
    assert w == "1:0";
    var prior := "12:7";
    assert prior[3..] == "7";
    assert Overwrite(prior, w) == w + prior[3..] == "1:07";
    assert UpdateFile(Votes("q", 1, 0, "votes"), WriteOnly(prior)) == Success(WriteOnly("1:07"));
    var p := Poll(Votes("q", 0, 0, "votes"), WriteOnly(prior));
    assert p.votes.(yes := p.votes.yes + 1) == Votes("q", 1, 0, "votes");
  }

  /** What a reply is formatted from: `format_results(&votes.question, &votes)`. */
  datatype Reply = Tally(question: string, yes: u64, no: u64)

  datatype Handled = Handled(poll: Poll, reply: Reply)

  function TallyOf(v: Votes): Reply {
    Tally(v.question, v.yes, v.no)
  }

  /** The commands the example registers. */
  datatype PollCommand = VoteYes | VoteNo | ShowResults

  /** One handler invocation with the tally lock held: `yes` and `no` apply
      one `add_yes` / `add_no` and reply with the new tally; `results` only
      replies. */
  function Handle(p: Poll, c: PollCommand): (r: Result<Handled, Panic>)
    ensures c == ShowResults ==> r == Success(Handled(p, TallyOf(p.votes)))
    ensures c == VoteYes ==> r.Success? == AddYes(p).Success?
    ensures c == VoteNo ==> r.Success? == AddNo(p).Success?
    ensures r.Success? ==> r.value.reply == TallyOf(r.value.poll.votes)
    ensures r.Success? && c == VoteYes ==> r.value.poll == AddYes(p).value
    ensures r.Success? && c == VoteNo ==> r.value.poll == AddNo(p).value
  {
    match c
    case ShowResults => Success(Handled(p, TallyOf(p.votes)))
    case VoteYes =>
      (match AddYes(p)
       case Success(q) => Success(Handled(q, TallyOf(q.votes)))
       case Failure(e) => Failure(e))
    case VoteNo =>
      (match AddNo(p)
       case Success(q) => Success(Handled(q, TallyOf(q.votes)))
       case Failure(e) => Failure(e))
  }

  /** Handlers applied one after another, stopping at the first panic. */
  function HandleAll(p: Poll, cs: seq<PollCommand>): Result<Poll, Panic>
    decreases |cs|
  {
    if |cs| == 0 then Success(p)
    else
      match Handle(p, cs[0])
      case Success(h) => HandleAll(h.poll, cs[1..])
      case Failure(e) => Failure(e)
  }

  function Count(cs: seq<PollCommand>, c: PollCommand): nat
    decreases |cs|
  {
    if |cs| == 0 then 0 else (if cs[0] == c then 1 else 0) + Count(cs[1..], c)
  }

  /** Starting from a state the program produces, a run of handlers that
      stays within `u64` never panics, counts every vote exactly once,
      leaves question and file name alone, and keeps the file synced once
      anything has been written. */
  lemma {:induction false} HandleAllTally(p: Poll, cs: seq<PollCommand>)
    requires Canonical(p)
    requires p.votes.yes + Count(cs, VoteYes) <= U64_MAX
    requires p.votes.no + Count(cs, VoteNo) <= U64_MAX
    ensures HandleAll(p, cs).Success?
    ensures var q := HandleAll(p, cs).value;
      && q.votes.yes == p.votes.yes + Count(cs, VoteYes)
      && q.votes.no == p.votes.no + Count(cs, VoteNo)
      && q.votes.question == p.votes.question
      && q.votes.filename == p.votes.filename
      && Canonical(q)
      && (Synced(p) || VoteYes in cs || VoteNo in cs ==> Synced(q))
    decreases |cs|
  {
    if |cs| > 0 {
      var c := cs[0];
      assert cs == [c] + cs[1..];
      if c == VoteYes {
        AddYesKeepsSynced(p);
      } else if c == VoteNo {
        AddNoKeepsSynced(p);
      }
      HandleAllTally(Handle(p, c).value.poll, cs[1..]);
    }
  }

  /** Restart after such a run: reading the file back gives the in-memory
      counts whenever the file has been written. */
  lemma ReloadAfterRun(p: Poll, cs: seq<PollCommand>)
    requires Canonical(p)
    requires p.votes.yes + Count(cs, VoteYes) <= U64_MAX
    requires p.votes.no + Count(cs, VoteNo) <= U64_MAX
    requires VoteYes in cs || VoteNo in cs
    ensures HandleAll(p, cs).Success?
    ensures var v := HandleAll(p, cs).value.votes;
      FromFile(v.question, v.filename, HandleAll(p, cs).value.file) == Success(v)
  {
    HandleAllTally(p, cs);
    ParseSerialized(HandleAll(p, cs).value.votes);
  }
}
