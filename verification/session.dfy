/**
 * The read-eval-print loop of the chat client and its conversation history.
 *
 * The history starts with one system entry.  Each line read from the terminal
 * is skipped when blank, ends the session when it is an exit word, and is
 * otherwise appended as a user entry; the chat template, the tokenizer's
 * `encode` and the engine's stream then decide what happens next.  These
 * outside parties are one parameter, `world`, which is given the index of the
 * line and the history (the template sees the history) and says how the turn
 * went.  What the client writes to its terminal is an appended log of events.
 */
module Session {
  import opened Streaming

  datatype Role = System | User | Assistant

  /** One `{"role": ..., "content": ...}` entry of the history list. */
  datatype Entry = Entry(role: Role, content: string)

  const SystemPrompt: string := "You are a helpful AI assistant running locally on RTX 50 series hardware."

  /** What the client writes, in order, to standard output or standard error. */
  datatype Event =
    | Ask                 // the input prompt, written by every read
    | Farewell            // the goodbye on end of input, an interrupt or an exit word
    | TemplateError       // the chat template raised (standard error)
    | Crash               // encode raised outside any handler: the program stops
    | Reply               // the prefix written before a streamed answer
    | Piece(text: string) // one delta written by the streaming loop
    | EndOfReply          // the line break after a completed stream
    | GenerationError     // the engine, the stream or decode raised (standard error)

  /**
   * How the engine's stream went: it ran to its end, or something raised after
   * the listed items were handled.
   */
  datatype Generation =
    | Completed(outputs: seq<seq<int>>)
    | Raised(outputs: seq<seq<int>>)

  /** How one accepted line fared with the template, `encode` and the engine. */
  datatype Backend =
    | TemplateFails
    | EncodeFails
    | Encoded(inputIds: seq<int>, generation: Generation)

  /** The state of the loop: the history, the terminal log and whether it has ended. */
  datatype Chat = Chat(history: seq<Entry>, log: seq<Event>, over: bool)

  const Initial: Chat := Chat([Entry(System, SystemPrompt)], [], false)

  /** The code points Python's `str.isspace` accepts; `str.strip()` removes exactly these. */
  const Whitespace: set<char> := {
    '\U{9}', '\U{A}', '\U{B}', '\U{C}', '\U{D}', '\U{1C}', '\U{1D}', '\U{1E}', '\U{1F}', '\U{20}',
    '\U{85}', '\U{A0}', '\U{1680}', '\U{2000}', '\U{2001}', '\U{2002}', '\U{2003}', '\U{2004}',
    '\U{2005}', '\U{2006}', '\U{2007}', '\U{2008}', '\U{2009}', '\U{200A}', '\U{2028}', '\U{2029}',
    '\U{202F}', '\U{205F}', '\U{3000}'
  }

  /** `s.lstrip()`: `s` without its leading whitespace. */
  function TrimStart(s: string): (t: string)
    ensures |t| <= |s|
    ensures t != [] ==> t[0] !in Whitespace
    decreases |s|
  {
    if s != [] && s[0] in Whitespace then TrimStart(s[1..]) else s
  }

  /** `s.rstrip()`: `s` without its trailing whitespace. */
  function TrimEnd(s: string): (t: string)
    ensures t <= s
    ensures s != [] && s[0] !in Whitespace ==> t != []
    ensures t != [] ==> t[|t| - 1] !in Whitespace
    decreases |s|
  {
    if s != [] && s[|s| - 1] in Whitespace then TrimEnd(s[..|s| - 1]) else s
  }

  /** `s.strip()`: `s` without whitespace at either end. */
  function Strip(s: string): string
  {
    TrimEnd(TrimStart(s))
  }

  /** `not line.strip()`: nothing is left once the whitespace is stripped. */
  predicate IsBlank(line: string)
  {
    Strip(line) == ""
  }

  /** Left-stripping only removes characters from the front: what is left is a suffix. */
  lemma {:induction false} TrimStartIsSuffix(s: string)
    ensures TrimStart(s) == s[|s| - |TrimStart(s)|..]
    // and every character removed is whitespace
    ensures forall c <- s[..|s| - |TrimStart(s)|] :: c in Whitespace
    decreases |s|
  {
    if s != [] && s[0] in Whitespace {
      TrimStartIsSuffix(s[1..]);
      var k := |s| - |TrimStart(s)|;
      assert s[1..][k - 1..] == s[k..];
      assert s[..k] == [s[0]] + s[1..][..k - 1];
    }
  }

  /**
   * Right-stripping only removes characters from the end, every one of them
   * whitespace: the line is what is left followed by whitespace.
   */
  lemma {:induction false} TrimEndRemovesWhitespace(s: string)
    ensures forall c <- s[|TrimEnd(s)|..] :: c in Whitespace
    decreases |s|
  {
    if s != [] && s[|s| - 1] in Whitespace {
      var init := s[..|s| - 1];
      TrimEndRemovesWhitespace(init);
      var k := |TrimEnd(s)|;
      assert s[k..] == init[k..] + [s[|s| - 1]];
    }
  }

  /** Left-stripping leaves nothing exactly when every character is whitespace. */
  lemma {:induction false} TrimStartEmpty(s: string)
    ensures TrimStart(s) == [] <==> forall c <- s :: c in Whitespace
    decreases |s|
  {
    if s != [] && s[0] in Whitespace {
      TrimStartEmpty(s[1..]);
      assert forall c <- s :: c == s[0] || c in s[1..];
    }
  }

  /** The blank lines are exactly the empty line and the lines made only of whitespace. */
  lemma BlankIsAllWhitespace(line: string)
    ensures IsBlank(line) <==> forall c <- line :: c in Whitespace
  {
    TrimStartEmpty(line);
  }

  function AsciiLower(c: char): char
  {
    if 'A' <= c <= 'Z' then (c as int + 32) as char else c
  }

  /** `s.lower()` for ASCII letters; every other character is kept. */
  function Lower(s: string): (t: string)
    ensures |t| == |s|
  {
    seq(|s|, i requires 0 <= i < |s| => AsciiLower(s[i]))
  }

  /**
   * Lowering moves each upper-case ASCII letter to its lower-case partner, keeps
   * every other character, and leaves no upper-case ASCII letter behind.
   */
  lemma LowerCases(s: string)
    ensures forall i :: 0 <= i < |s| && !('A' <= s[i] <= 'Z') ==> Lower(s)[i] == s[i]
    ensures forall i :: 0 <= i < |s| && 'A' <= s[i] <= 'Z' ==> Lower(s)[i] as int == s[i] as int + 32
    ensures forall i :: 0 <= i < |s| ==> !('A' <= Lower(s)[i] <= 'Z')
  {
  }

  const ExitWords: set<string> := {"exit", "quit", "\U{96E2}\U{958B}"}

  /** `line.lower() in ["exit", "quit", "離開"]`. */
  predicate IsExitWord(line: string)
  {
    Lower(line) in ExitWords
  }

  /** An exit word is never blank, so the blank test before it never hides one. */
  lemma ExitWordNotBlank(line: string)
    requires IsExitWord(line)
    ensures !IsBlank(line) && (|line| == 4 || |line| == 2)
  {
    var lowered := Lower(line);
    assert |lowered| > 0 && lowered[0] !in Whitespace;
    assert line[0] in line && line[0] !in Whitespace;
    BlankIsAllWhitespace(line);
  }

  /** Letter case does not matter to the exit test, but surrounding whitespace does. */
  lemma ExitWordSpellings()
    ensures IsExitWord("EXIT") && IsExitWord("Quit") && IsExitWord("\U{96E2}\U{958B}")
    ensures !IsExitWord(" exit") && !IsExitWord("exit ")
  {
    assert Lower("EXIT") == "exit";
    assert Lower("Quit") == "quit";
    assert Lower("\U{96E2}\U{958B}") == "\U{96E2}\U{958B}";
  }

  /** A line that becomes a user entry. */
  predicate Accepted(line: string)
  {
    !IsBlank(line) && !IsExitWord(line)
  }

  /** The turn ran the stream to its end, so an assistant entry follows the user entry. */
  predicate Answered(b: Backend)
  {
    b.Encoded? && b.generation.Completed?
  }

  /**
   * The shape the history keeps: one system entry first and nowhere else, and
   * every assistant entry directly after a user entry.  It is weaker than
   * strict alternation: a turn whose template failed leaves a user entry with
   * no answer.
   */
  predicate WellFormed(h: seq<Entry>)
  {
    |h| >= 1 && h[0] == Entry(System, SystemPrompt) &&
    (forall i :: 1 <= i < |h| ==> h[i].role != System) &&
    (forall i :: 1 <= i < |h| && h[i].role == Assistant ==> h[i - 1].role == User)
  }

  function Pieces(printed: seq<string>): (events: seq<Event>)
    ensures |events| == |printed|
    ensures forall i :: 0 <= i < |printed| ==> events[i] == Piece(printed[i])
  {
    seq(|printed|, i requires 0 <= i < |printed| => Piece(printed[i]))
  }

  /**
   * What follows once `line` was appended as a user entry (`asked` is the
   * history with that entry): the template, `encode` and the stream, as `backend` says.
   */
  function Respond(asked: seq<Entry>, log: seq<Event>, backend: Backend, decode: seq<int> -> string)
    : (r: Chat)
    // the log only grows
    ensures log <= r.log
    // the history gains the assistant entry, holding the response, exactly when the stream completed
    ensures Answered(backend) ==>
              r.history == asked + [Entry(Assistant, Run(backend.generation.outputs, |backend.inputIds|,
                                                         decode).0.fullResponse)]
    ensures !Answered(backend) ==> r.history == asked
    // only a failing encode ends the loop
    ensures r.over <==> backend.EncodeFails?
    // what the turn writes: the error, or the reply prefix, the streamed pieces and how the stream ended
    ensures backend.TemplateFails? ==> r.log == log + [TemplateError]
    ensures backend.EncodeFails? ==> r.log == log + [Crash]
    ensures backend.Encoded? ==>
              r.log == log + [Reply] + Pieces(Run(backend.generation.outputs, |backend.inputIds|, decode).1) +
                       [if Answered(backend) then EndOfReply else GenerationError]
  {
    match backend
    case TemplateFails =>
      Chat(asked, log + [TemplateError], false)
    case EncodeFails =>
      Chat(asked, log + [Crash], true)
    case Encoded(inputIds, generation) =>
      var streamed := Run(generation.outputs, |inputIds|, decode);
      var shown := log + [Reply] + Pieces(streamed.1);
      match generation
      case Completed(_) =>
        Chat(asked + [Entry(Assistant, streamed.0.fullResponse)], shown + [EndOfReply], false)
      case Raised(_) =>
        Chat(asked, shown + [GenerationError], false)
  }

  /** Appending a user entry and then, perhaps, an assistant entry keeps the history's shape. */
  lemma KeepsShape(h: seq<Entry>, line: string, r: seq<Entry>)
    requires WellFormed(h)
    requires h + [Entry(User, line)] <= r && |r| <= |h| + 2
    requires |r| == |h| + 2 ==> r[|h| + 1].role == Assistant
    ensures WellFormed(r)
  {
  }

  /** What a turn does once the line is appended as a user entry, whatever the backend says. */
  lemma RespondAfterUser(c: Chat, line: string, b: Backend, decode: seq<int> -> string)
    ensures var r := Respond(c.history + [Entry(User, line)], c.log + [Ask], b, decode);
            && c.log + [Ask] <= r.log
            && c.history <= r.history
            && (WellFormed(c.history) ==> WellFormed(r.history))
            && (r.over <==> b.EncodeFails?)
            && (!Answered(b) ==> r.history == c.history + [Entry(User, line)])
            && (Answered(b) ==>
                  r.history == c.history + [Entry(User, line),
                                            Entry(Assistant, Run(b.generation.outputs, |b.inputIds|,
                                                                 decode).0.fullResponse)])
  {
  }

  /** One pass of the loop, after the read returned `line` (the line at position `index`). */
  function Turn(c: Chat, index: nat, line: string,
                world: (nat, seq<Entry>) -> Backend, decode: seq<int> -> string): (r: Chat)
    // the terminal log only grows, by the prompt of the read and what follows it
    ensures c.log + [Ask] <= r.log
    // the history only grows, and keeps its shape
    ensures c.history <= r.history
    ensures WellFormed(c.history) ==> WellFormed(r.history)
    // a blank line changes nothing but the log, and nothing is generated
    ensures IsBlank(line) ==> r == c.(log := c.log + [Ask])
    // an exit word says goodbye, ends the loop and leaves the history as it was
    ensures IsExitWord(line) ==> r == c.(log := c.log + [Ask, Farewell], over := true)
    // any other line is appended as a user entry and the turn then writes and records what
    // `Respond` says for the backend's answer on that history
    ensures Accepted(line) ==>
              var asked := c.history + [Entry(User, line)];
              r == Respond(asked, c.log + [Ask], world(index, asked), decode)
    // so it appends one user entry, then the assistant entry holding the response exactly
    // when the stream completed; the loop goes on, template and stream failures included,
    // unless encode raised
    ensures Accepted(line) ==>
              var b := world(index, c.history + [Entry(User, line)]);
              && (r.over <==> b.EncodeFails?)
              && (!Answered(b) ==> r.history == c.history + [Entry(User, line)])
              && (Answered(b) ==>
                    r.history == c.history + [Entry(User, line),
                                              Entry(Assistant, Run(b.generation.outputs, |b.inputIds|,
                                                                   decode).0.fullResponse)])
  {
    if IsBlank(line) then
      assert !IsExitWord(line) by {
        if IsExitWord(line) { ExitWordNotBlank(line); }
      }
      c.(log := c.log + [Ask])
    else if IsExitWord(line) then
      c.(log := c.log + [Ask, Farewell], over := true)
    else
      var asked := c.history + [Entry(User, line)];
      RespondAfterUser(c, line, world(index, asked), decode);
      Respond(asked, c.log + [Ask], world(index, asked), decode)
  }

  /** What an answered turn writes and records, when its stream only ever extended its response. */
  lemma RespondEchoes(asked: seq<Entry>, log: seq<Event>, b: Backend, decode: seq<int> -> string)
    requires Answered(b)
    requires PrintsExtend(b.generation.outputs, |b.inputIds|, decode)
    ensures var printed := Run(b.generation.outputs, |b.inputIds|, decode).1;
            Respond(asked, log, b, decode) ==
              Chat(asked + [Entry(Assistant, Concat(printed))], log + [Reply] + Pieces(printed) + [EndOfReply], false)
  {
    RunEchoesResponse(b.generation.outputs, |b.inputIds|, decode);
  }

  /**
   * When the stream of an answered turn only ever extended its response, the
   * terminal shows exactly the assistant entry the turn adds to the history.
   */
  lemma AnsweredTurnEchoes(c: Chat, index: nat, line: string,
                           world: (nat, seq<Entry>) -> Backend, decode: seq<int> -> string)
    requires Accepted(line)
    requires Answered(world(index, c.history + [Entry(User, line)]))
    requires var b := world(index, c.history + [Entry(User, line)]);
             PrintsExtend(b.generation.outputs, |b.inputIds|, decode)
    ensures var b := world(index, c.history + [Entry(User, line)]);
            var printed := Run(b.generation.outputs, |b.inputIds|, decode).1;
            var r := Turn(c, index, line, world, decode);
            r.log == c.log + [Ask, Reply] + Pieces(printed) + [EndOfReply] &&
            r.history == c.history + [Entry(User, line), Entry(Assistant, Concat(printed))]
  {
    var asked := c.history + [Entry(User, line)];
    var b := world(index, asked);
    var printed := Run(b.generation.outputs, |b.inputIds|, decode).1;
    RespondEchoes(asked, c.log + [Ask], b, decode);
    assert c.log + [Ask] + [Reply] == c.log + [Ask, Reply];
    assert asked + [Entry(Assistant, Concat(printed))] ==
           c.history + [Entry(User, line), Entry(Assistant, Concat(printed))];
  }

  /** The loop over the lines read so far; once it has ended, later lines are never read. */
  function Replay(lines: seq<string>, world: (nat, seq<Entry>) -> Backend, decode: seq<int> -> string)
    : (c: Chat)
    ensures WellFormed(c.history)
    decreases |lines|
  {
    if lines == [] then Initial
    else
      var before := Replay(lines[..|lines| - 1], world, decode);
      if before.over then before
      else Turn(before, |lines| - 1, lines[|lines| - 1], world, decode)
  }

  /** A whole session: when the lines run out, the next read meets end of input and says goodbye. */
  function WholeSession(lines: seq<string>, world: (nat, seq<Entry>) -> Backend, decode: seq<int> -> string)
    : (c: Chat)
    ensures c.over && c.history == Replay(lines, world, decode).history
    // if the lines ran out before an exit, the last read met end of input and said goodbye
    ensures !Replay(lines, world, decode).over ==>
              c.log == Replay(lines, world, decode).log + [Ask, Farewell]
    ensures Replay(lines, world, decode).over ==> c == Replay(lines, world, decode)
  {
    var c := Replay(lines, world, decode);
    if c.over then c else c.(log := c.log + [Ask, Farewell], over := true)
  }

  /** The `while True` loop of chat.py, from the initial history to the end of the session. */
  method ChatLoop(lines: seq<string>, world: (nat, seq<Entry>) -> Backend, decode: seq<int> -> string)
    returns (history: seq<Entry>, log: seq<Event>)
    ensures Chat(history, log, true) == WholeSession(lines, world, decode)
    ensures WellFormed(history)
    ensures Count(history, Assistant) <= Count(history, User)
  {
    history := [Entry(System, SystemPrompt)];
    log := [];
    var i := 0;
    while true
      invariant i <= |lines|
      invariant Chat(history, log, false) == Replay(lines[..i], world, decode)
      decreases |lines| - i
    {
      if i == |lines| {
        // input() raised EOFError
        log := log + [Ask, Farewell];
        assert lines[..i] == lines;
        break;
      }
      assert lines[..i + 1][..i] == lines[..i];
      var over;
      history, log, over := Pass(history, log, i, lines[i], world, decode);
      i := i + 1;
      if over {
        ReplayStops(lines, i, world, decode);
        break;
      }
    }
    AnswersNeverExceedQuestions(history);
  }

  /**
   * One pass of the loop on the line read: skip it, say goodbye, or append it
   * and answer it; `over` says whether the loop ends here.
   */
  method Pass(history: seq<Entry>, log: seq<Event>, index: nat, userInput: string,
              world: (nat, seq<Entry>) -> Backend, decode: seq<int> -> string)
    returns (history': seq<Entry>, log': seq<Event>, over: bool)
    ensures Chat(history', log', over) == Turn(Chat(history, log, false), index, userInput, world, decode)
  {
    history', log', over := history, log + [Ask], false;
    if IsBlank(userInput) {
      return;
    }
    if IsExitWord(userInput) {
      log' := log' + [Farewell];
      over := true;
      return;
    }

    history' := history' + [Entry(User, userInput)];
    var backend := world(index, history');
    ghost var responded := Respond(history', log', backend, decode);
    if backend.TemplateFails? {
      log' := log' + [TemplateError];
      return;
    }
    if backend.EncodeFails? {
      log' := log' + [Crash];
      over := true;
      return;
    }

    log' := log' + [Reply];
    var lastTextLen, fullResponse, printed := StreamTurn(backend.generation.outputs, backend.inputIds, decode);
    log' := log' + Pieces(printed);
    if backend.generation.Completed? {
      log' := log' + [EndOfReply];
      history' := history' + [Entry(Assistant, fullResponse)];
    } else {
      log' := log' + [GenerationError];
    }
    assert Chat(history', log', over) == responded;
  }

  /** Once the loop has ended, the lines after it change nothing. */
  lemma {:induction false} ReplayStops(lines: seq<string>, k: nat,
                                       world: (nat, seq<Entry>) -> Backend, decode: seq<int> -> string)
    requires k <= |lines|
    requires Replay(lines[..k], world, decode).over
    ensures Replay(lines, world, decode) == Replay(lines[..k], world, decode)
    decreases |lines|
  {
    if k == |lines| {
      assert lines[..k] == lines;
    } else {
      var init := lines[..|lines| - 1];
      assert init[..k] == lines[..k];
      ReplayStops(init, k, world, decode);
    }
  }

  /**
   * The history and the terminal log only grow: what they hold after any prefix
   * of the input is a prefix of what they hold after all of it.
   */
  lemma {:induction false} ReplayGrows(lines: seq<string>, k: nat,
                                       world: (nat, seq<Entry>) -> Backend, decode: seq<int> -> string)
    requires k <= |lines|
    ensures Replay(lines[..k], world, decode).history <= Replay(lines, world, decode).history
    ensures Replay(lines[..k], world, decode).log <= Replay(lines, world, decode).log
    decreases |lines|
  {
    if k == |lines| {
      assert lines[..k] == lines;
    } else {
      var init := lines[..|lines| - 1];
      assert init[..k] == lines[..k];
      ReplayGrows(init, k, world, decode);
      var before := Replay(init, world, decode);
      if !before.over {
        var after := Turn(before, |lines| - 1, lines[|lines| - 1], world, decode);
        assert before.history <= after.history;
      }
    }
  }

  function Count(h: seq<Entry>, role: Role): nat
  {
    if h == [] then 0
    else Count(h[..|h| - 1], role) + (if h[|h| - 1].role == role then 1 else 0)
  }

  /**
   * In a history of that shape there are never more answers than questions,
   * and strictly fewer while the last entry is an unanswered user entry.
   */
  lemma {:induction false} AnswersNeverExceedQuestions(h: seq<Entry>)
    requires WellFormed(h)
    ensures Count(h, Assistant) + (if h[|h| - 1].role == User then 1 else 0) <= Count(h, User)
    decreases |h|
  {
    if |h| > 1 {
      var init := h[..|h| - 1];
      assert forall i :: 0 <= i < |init| ==> init[i] == h[i];
      AnswersNeverExceedQuestions(init);
      if h[|h| - 1].role == Assistant {
        assert init[|init| - 1].role == User;
      }
    }
  }

  /** Neither greeting is blank or an exit word, so both become user entries. */
  lemma GreetingsAccepted()
    ensures Accepted("hi") && Accepted("hello")
  {
    assert "hi"[0] !in Whitespace && "hello"[0] !in Whitespace;
    BlankIsAllWhitespace("hi");
    BlankIsAllWhitespace("hello");
    assert Lower("hi") == "hi" by {
      assert Lower("hi")[0] == 'h' && Lower("hi")[1] == 'i';
    }
    assert |Lower("hello")| == 5;
  }

  /** The loop over two lines: the first pass, then the second unless the first ended it. */
  lemma ReplayTwo(a: string, b: string, world: (nat, seq<Entry>) -> Backend, decode: seq<int> -> string)
    ensures Replay([a], world, decode) == Turn(Initial, 0, a, world, decode)
    ensures var first := Replay([a], world, decode);
            Replay([a, b], world, decode) == if first.over then first else Turn(first, 1, b, world, decode)
  {
  }

  /** Two accepted lines, the first failing at the template and the second answered. */
  lemma FailedThenAnswered(c: Chat, a: string, b: string,
                           world: (nat, seq<Entry>) -> Backend, decode: seq<int> -> string)
    requires Accepted(a) && Accepted(b)
    requires world(0, c.history + [Entry(User, a)]).TemplateFails?
    requires Answered(world(1, c.history + [Entry(User, a), Entry(User, b)]))
    ensures var g := world(1, c.history + [Entry(User, a), Entry(User, b)]);
            var first := Turn(c, 0, a, world, decode);
            && !first.over
            && Turn(first, 1, b, world, decode).history ==
                 c.history + [Entry(User, a), Entry(User, b),
                              Entry(Assistant, Run(g.generation.outputs, |g.inputIds|, decode).0.fullResponse)]
  {
    var first := Turn(c, 0, a, world, decode);
    assert first.history + [Entry(User, b)] == c.history + [Entry(User, a), Entry(User, b)];
  }

  /**
   * A template failure leaves a user entry with no answer, so the history does
   * not alternate: after "hi" fails and "hello" is answered, two user entries
   * stand side by side.
   */
  lemma TemplateFailureLeavesUnansweredTurn(world: (nat, seq<Entry>) -> Backend, decode: seq<int> -> string)
    requires world(0, [Entry(System, SystemPrompt), Entry(User, "hi")]) == TemplateFails
    requires world(1, [Entry(System, SystemPrompt), Entry(User, "hi"), Entry(User, "hello")])
             == Encoded([], Completed([]))
    ensures WholeSession(["hi", "hello"], world, decode).history ==
              [Entry(System, SystemPrompt), Entry(User, "hi"), Entry(User, "hello"), Entry(Assistant, "")]
  {
    assert Initial.history + [Entry(User, "hi")] == [Entry(System, SystemPrompt), Entry(User, "hi")];
    assert Initial.history + [Entry(User, "hi"), Entry(User, "hello")] ==
           [Entry(System, SystemPrompt), Entry(User, "hi"), Entry(User, "hello")];
    assert Run([], 0, decode).0 == Fresh;
    GreetingsAccepted();
    FailedThenAnswered(Initial, "hi", "hello", world, decode);
    ReplayTwo("hi", "hello", world, decode);
  }
}
