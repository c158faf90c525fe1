/** The control connection: parsing a command line, and the login states that guard the commands. */
module ControlSession {
  import opened Machine

  const BUFFER: nat := 1024

  const CONNECTED: int := 1
  const USERNAME_RECEIVED: int := 2
  const AUTHENTICATED: int := 3

  const NO_COMMAND: int := -1
  const QUIT: int := 0
  const USER: int := 1
  const PASS: int := 2
  const RELOAD: int := 3
  const STATUS: int := 4
  const HELP: int := 5
  const LOGREGEXP: int := 6

  // ----- reading a line

  predicate Ends(c: char) { c == '\0' || c == '\n' || c == '\r' }

  /** What a received packet means: the text before the first line end or NUL. */
  function Line(data: string): string {
    if data == [] || Ends(data[0]) then [] else [data[0]] + Line(data[1..])
  }

  /** The line ends where the first line end or NUL is. */
  lemma {:induction false} FirstLine(data: string) returns (k: nat)
    ensures k <= |data| && Line(data) == data[..k] && (k < |data| ==> data[k] in {'\0', '\n', '\r'})
    ensures forall i :: 0 <= i < k ==> data[i] !in {'\0', '\n', '\r'}
  {
    k := 0;
    if data != [] && !Ends(data[0]) {
      k := FirstLine(data[1..]);
      assert data[1..][..k] == data[..k + 1][1..];
      k := k + 1;
    }
  }

  lemma {:induction false} LinePrefix(data: string, memory: string)
    requires |data| <= |memory|
    requires forall i :: 0 <= i < |data| ==> memory[i] == if Ends(data[i]) then '\0' else data[i]
    requires forall i :: |data| <= i < |memory| ==> memory[i] == '\0'
    ensures CString(memory, '\0') == Line(data)
  {
    if data != [] && !Ends(data[0]) {
      LinePrefix(data[1..], memory[1..]);
    }
  }

  /** The loop that blanks line ends in the zero-filled receive buffer. */
  method BlankLineEnds(buf: array<char>, received: nat, ghost data: string)
    requires received == |data| && received < buf.Length && buf[..received] == data
    requires forall i :: received <= i < buf.Length ==> buf[i] == '\0'
    modifies buf
    ensures CString(buf[..], '\0') == Line(data)
    ensures buf.Length <= BUFFER ==> ValidLine(CString(buf[..], '\0'))
  {
    var i := 0;
    while i < received
      invariant 0 <= i <= received
      invariant forall j :: 0 <= j < i ==> buf[j] == if Ends(data[j]) then '\0' else data[j]
      invariant forall j :: i <= j < received ==> buf[j] == data[j]
      invariant forall j :: received <= j < buf.Length ==> buf[j] == '\0'
    {
      if buf[i] == '\n' || buf[i] == '\r' {
        buf[i] := '\0';
      }
      i := i + 1;
    }
    LinePrefix(data, buf[..]);
    if buf.Length <= BUFFER { LineIsValid(data); }
  }

  /** The lines a connection can deliver: they fit the buffer and hold no line end. */
  predicate ValidLine(line: string) {
    |line| < BUFFER && forall i :: 0 <= i < |line| ==> !Ends(line[i])
  }

  lemma {:induction false} LineIsValid(data: string)
    requires |data| < BUFFER
    ensures ValidLine(Line(data)) && |Line(data)| <= |data|
  {
    if data != [] && !Ends(data[0]) {
      LineIsValid(data[1..]);
    }
  }

  // ----- recognising a command

  function Lower(c: char): char {
    if 'A' <= c <= 'Z' then (c as int + 32) as char else c
  }

  predicate StartsWith(line: string, keyword: string) {
    |keyword| <= |line| && forall i :: 0 <= i < |keyword| ==> Lower(line[i]) == keyword[i]
  }

  /** Which lines mean which command, each on its own. */
  predicate Means(line: string, command: int) {
    if command == QUIT then StartsWith(line, "quit")
    else if command == RELOAD then |line| == 6 && StartsWith(line, "reload")
    else if command == STATUS then StartsWith(line, "status")
    else if command == HELP then StartsWith(line, "help")
    else if command == USER then StartsWith(line, "user ") && |line| >= 8
    else if command == PASS then StartsWith(line, "pass ") && |line| >= 8
    else command == LOGREGEXP && StartsWith(line, "logregexp ")
  }

  function LowerAll(s: string): string { seq(|s|, i requires 0 <= i < |s| => Lower(s[i])) }

  /** The keywords themselves, in whatever case they are typed, and how long a line must be. */
  lemma {:induction false} Keywords(line: string)
    ensures Means(line, QUIT) <==> |line| >= 4 && LowerAll(line[..4]) == "quit"
    ensures Means(line, RELOAD) <==> LowerAll(line) == "reload"
    ensures Means(line, STATUS) <==> |line| >= 6 && LowerAll(line[..6]) == "status"
    ensures Means(line, HELP) <==> |line| >= 4 && LowerAll(line[..4]) == "help"
    ensures Means(line, USER) <==> |line| >= 8 && LowerAll(line[..5]) == "user "
    ensures Means(line, PASS) <==> |line| >= 8 && LowerAll(line[..5]) == "pass "
    ensures Means(line, LOGREGEXP) <==> |line| >= 10 && LowerAll(line[..10]) == "logregexp "
  {
    StartsWithLower(line, "quit");
    StartsWithLower(line, "reload");
    StartsWithLower(line, "status");
    StartsWithLower(line, "help");
    StartsWithLower(line, "user ");
    StartsWithLower(line, "pass ");
    StartsWithLower(line, "logregexp ");
    assert |line| == 6 ==> line[..6] == line;
  }

  lemma {:induction false} StartsWithLower(line: string, keyword: string)
    ensures StartsWith(line, keyword) <==> |keyword| <= |line| && LowerAll(line[..|keyword|]) == keyword
  {
    if |keyword| <= |line| {
      var lower := LowerAll(line[..|keyword|]);
      assert forall i :: 0 <= i < |keyword| ==> lower[i] == Lower(line[i]);
    }
  }

  /** Upper and lower case letters are the same to the keywords, and nothing else is. */
  lemma {:induction false} LowerOnlyFoldsCase(a: char, b: char)
    ensures Lower(a) == Lower(b) <==>
      a == b || ('A' <= a <= 'Z' && b as int == a as int + 32) || ('A' <= b <= 'Z' && a as int == b as int + 32)
  {
  }

  function FirstLetter(command: int): char {
    if command == QUIT then 'q' else if command == RELOAD then 'r' else if command == STATUS then 's'
    else if command == HELP then 'h' else if command == USER then 'u' else if command == PASS then 'p' else 'l'
  }

  /** The tests exclude each other, so their order does not matter. */
  lemma {:induction false} OneMeaning(line: string, a: int, b: int)
    requires Means(line, a) && Means(line, b)
    ensures a == b
  {
    assert Lower(line[0]) == FirstLetter(a) == FirstLetter(b);
  }

  /** The command a line means, if any. */
  function CommandOf(line: string): int {
    if Means(line, QUIT) then QUIT else if Means(line, USER) then USER else if Means(line, PASS) then PASS
    else if Means(line, RELOAD) then RELOAD else if Means(line, STATUS) then STATUS
    else if Means(line, HELP) then HELP else if Means(line, LOGREGEXP) then LOGREGEXP else NO_COMMAND
  }

  lemma {:induction false} CommandOfMeans(line: string, command: int)
    requires Means(line, command)
    ensures CommandOf(line) == command
  {
    assert Means(line, CommandOf(line));
    OneMeaning(line, command, CommandOf(line));
  }

  /** The chain of tests, in the order of the source; a keyword too short for its argument ends the chain. */
  method Recognise(line: string) returns (command: int, arg: string)
    ensures command == NO_COMMAND || Means(line, command)
    ensures forall c :: Means(line, c) ==> command == c
    ensures command == USER || command == PASS ==> |line| >= 8 && arg == line[5..]
    ensures command == LOGREGEXP ==> |line| >= 10 && arg == line[10..]
  {
    command, arg := NO_COMMAND, "";
    if StartsWith(line, "quit") {
      command := QUIT;
    } else if |line| == 6 && StartsWith(line, "reload") {
      command := RELOAD;
    } else if StartsWith(line, "status") {
      command := STATUS;
    } else if StartsWith(line, "help") {
      command := HELP;
    } else if StartsWith(line, "user ") {
      if |line| >= 8 {
        command, arg := USER, line[5..];
      }
    } else if StartsWith(line, "pass ") {
      if |line| >= 8 {
        command, arg := PASS, line[5..];
      }
    } else if StartsWith(line, "logregexp ") {
      if |line| >= 10 {
        command, arg := LOGREGEXP, line[10..];
      }
    }
    forall c | Means(line, c) ensures command == c {
      assert Lower(line[0]) == FirstLetter(c);
      if command != NO_COMMAND { OneMeaning(line, c, command); }
    }
  }

  // ----- acting on it

  datatype Effect =
    | Goodbye | AskPassword | LoggedIn | LoginFailure | Reload | LogRegexp(pattern: string)
    | SendStatus | SendHelp | NotLoggedIn | NotRecognized

  /** `command << 8 | state`, as the number it is. */
  function Encode(command: int, state: int): int { command * 256 + state }

  /** Bitwise or. */
  function Or(a: nat, b: nat): nat
    decreases a + b
  {
    if a == 0 && b == 0 then 0 else (if a % 2 == 1 || b % 2 == 1 then 1 else 0) + 2 * Or(a / 2, b / 2)
  }

  lemma {:induction false} OrZero(a: nat)
    ensures Or(a, 0) == a
  {
    if a > 0 { OrZero(a / 2); }
  }

  lemma {:induction false} OrEven(a: nat, b: nat)
    ensures Or(2 * a, b) == 2 * Or(a, b / 2) + b % 2
  {
  }

  function Shift(a: nat, k: nat): nat { if k == 0 then a else 2 * Shift(a, k - 1) }

  /** The low bits of a shifted word are zero, so the or with a small number is a sum. */
  lemma {:induction false} OrShifted(a: nat, b: nat, k: nat)
    requires b < Shift(1, k)
    ensures Or(Shift(a, k), b) == Shift(a, k) + b
  {
    if k == 0 {
      OrZero(a);
    } else {
      OrEven(Shift(a, k - 1), b);
      OrShifted(a, b / 2, k - 1);
    }
  }

  lemma {:induction false} ShiftEight(a: nat)
    ensures Shift(a, 8) == 256 * a
  {
    assert Shift(a, 1) == 2 * a && Shift(a, 2) == 4 * a && Shift(a, 3) == 8 * a && Shift(a, 4) == 16 * a;
    assert Shift(a, 5) == 32 * a && Shift(a, 6) == 64 * a && Shift(a, 7) == 128 * a;
  }

  lemma {:induction false} OrByte(a: nat, b: nat)
    requires b < 256
    ensures Or(256 * a, b) == 256 * a + b
  {
    ShiftEight(1);
    ShiftEight(a);
    OrShifted(a, b, 8);
  }

  /** An `int` as the machine holds it. */
  function Word(x: int): nat { x % TWO_32 }

  lemma {:induction false} WordOfShifted(command: int, low: nat, state: nat, x: int)
    requires low == command % 0x100_0000 && state < 256 && x == 256 * command + state
    ensures Word(x) == 256 * low + state
  {
    var high := command / 0x100_0000;
    assert x == 256 * low + state + TWO_32 * high;
    WholeTurns(256 * low + state, high);
  }

  /** Shifting the word of any command, -1 included, and or-ing a state gives the word of that number. */
  lemma {:induction false} EncodeIsShiftOr(command: int, state: int)
    requires 0 <= state < 256
    ensures Word(Encode(command, state)) == Or(Word(256 * command), state)
  {
    var low: nat := command % 0x100_0000;
    var shifted, encoded := 256 * command, Encode(command, state);
    WordOfShifted(command, low, 0, shifted);
    WordOfShifted(command, low, state, encoded);
    OrByte(low, state);
  }

  lemma {:induction false} EncodeUnambiguous(c: int, s: int, d: int, t: int)
    requires 0 <= s < 256 && 0 <= t < 256
    ensures Encode(c, s) == Encode(d, t) <==> c == d && s == t
  {
  }

  predicate ValidState(state: int) { CONNECTED <= state <= AUTHENTICATED }

  /** What each command does in each state. */
  function Respond(state: int, command: int, arg: string, password: string): Effect {
    if command == QUIT then Goodbye
    else if command == STATUS then SendStatus
    else if command == HELP then SendHelp
    else if command == USER && state == CONNECTED then AskPassword
    else if command == PASS && state == USERNAME_RECEIVED then (if arg == password then LoggedIn else LoginFailure)
    else if command == RELOAD then (if state == AUTHENTICATED then Reload else NotLoggedIn)
    else if command == LOGREGEXP && state == AUTHENTICATED then LogRegexp(arg)
    else NotRecognized
  }

  function ArgumentOf(line: string): string {
    if CommandOf(line) == USER || CommandOf(line) == PASS then line[5..]
    else if CommandOf(line) == LOGREGEXP then line[10..]
    else ""
  }

  /** A line as the code acts on it. */
  datatype Request = Request(command: int, arg: string)

  function Parse(line: string): Request { Request(CommandOf(line), ArgumentOf(line)) }

  function EffectOf(state: int, r: Request, password: string): Effect {
    Respond(state, r.command, r.arg, password)
  }

  function StateAfter(state: int, r: Request, password: string): int {
    match EffectOf(state, r, password)
    case AskPassword => USERNAME_RECEIVED
    case LoggedIn => AUTHENTICATED
    case _ => state
  }

  class Connection {
    const password: string
    var state: int

    constructor (password: string)
      ensures this.password == password && state == CONNECTED
    {
      this.password := password;
      state := CONNECTED;
    }

    /** The switch on the encoded pair. */
    method Handle(line: string) returns (effect: Effect)
      requires ValidState(state)
      modifies this
      ensures effect == EffectOf(old(state), Parse(line), password)
      ensures state == StateAfter(old(state), Parse(line), password) && ValidState(state)
    {
      var command, arg := Recognise(line);
      assert command == CommandOf(line) && (command in {USER, PASS, LOGREGEXP} ==> arg == ArgumentOf(line)) by {
        if command != NO_COMMAND { CommandOfMeans(line, command); }
      }
      effect := Dispatch(command, arg);
    }

    method Dispatch(command: int, arg: string) returns (effect: Effect)
      requires ValidState(state)
      modifies this
      ensures effect == Respond(old(state), command, arg, password)
      ensures state ==
        if effect == AskPassword then USERNAME_RECEIVED
        else if effect == LoggedIn then AUTHENTICATED
        else old(state)
      ensures ValidState(state)
    {
      var code := Encode(command, state);
      forall c, at | 0 <= at < 256 ensures code == Encode(c, at) <==> command == c && state == at {
        EncodeUnambiguous(command, state, c, at);
      }
      if code == Encode(QUIT, CONNECTED) || code == Encode(QUIT, USERNAME_RECEIVED)
          || code == Encode(QUIT, AUTHENTICATED) {
        effect := Goodbye;
      } else if code == Encode(USER, CONNECTED) {
        state := USERNAME_RECEIVED;
        effect := AskPassword;
      } else if code == Encode(PASS, USERNAME_RECEIVED) {
        if password == arg {
          state := AUTHENTICATED;
          effect := LoggedIn;
        } else {
          effect := LoginFailure;
        }
      } else if code == Encode(RELOAD, AUTHENTICATED) {
        effect := Reload;
      } else if code == Encode(LOGREGEXP, AUTHENTICATED) {
        effect := LogRegexp(arg);
      } else if code == Encode(STATUS, CONNECTED) || code == Encode(STATUS, USERNAME_RECEIVED)
          || code == Encode(STATUS, AUTHENTICATED) {
        effect := SendStatus;
      } else if code == Encode(HELP, CONNECTED) || code == Encode(HELP, USERNAME_RECEIVED)
          || code == Encode(HELP, AUTHENTICATED) {
        effect := SendHelp;
      } else if code == Encode(RELOAD, CONNECTED) || code == Encode(RELOAD, USERNAME_RECEIVED) {
        effect := NotLoggedIn;
      } else {
        effect := NotRecognized;
      }
    }

    /** The loop of a connection, over the lines it receives: it ends with a `quit` or with the last line. */
    method Serve(lines: seq<string>) returns (effects: seq<Effect>)
      requires state == CONNECTED
      modifies this
      ensures Transcript(Parsed(lines), password, effects)
      ensures effects == [] || effects[|effects| - 1] != Goodbye ==> |effects| == |lines|
      ensures state == StateAt(Parsed(lines), password, |effects|)
    {
      effects := [];
      var done := false;
      while !done && |effects| < |lines|
        invariant Transcript(Parsed(lines), password, effects)
        invariant done <==> effects != [] && effects[|effects| - 1] == Goodbye
        invariant state == StateAt(Parsed(lines), password, |effects|) && ValidState(state)
        decreases |lines| - |effects|
      {
        var effect := Handle(lines[|effects|]);
        OneMoreEffect(Parsed(lines), password, effects);
        done := effect == Goodbye;
        effects := effects + [effect];
      }
    }
  }

  /** The effects of the first requests, none of them after a `quit`. */
  ghost predicate Transcript(rs: seq<Request>, password: string, effects: seq<Effect>) {
    && |effects| <= |rs|
    && (forall i {:trigger EffectAt(rs, password, i)} :: 0 <= i < |effects| ==> effects[i] == EffectAt(rs, password, i))
    && (forall i :: 0 <= i < |effects| - 1 ==> effects[i] != Goodbye)
  }

  lemma {:induction false} OneMoreEffect(rs: seq<Request>, password: string, effects: seq<Effect>)
    requires Transcript(rs, password, effects) && |effects| < |rs|
    requires effects == [] || effects[|effects| - 1] != Goodbye
    ensures Transcript(rs, password, effects + [EffectAt(rs, password, |effects|)])
  {
  }

  // ----- whole connections

  function Parsed(lines: seq<string>): seq<Request> {
    seq(|lines|, i requires 0 <= i < |lines| => Parse(lines[i]))
  }

  /** The state before request `i`. */
  function StateAt(rs: seq<Request>, password: string, i: nat): int
    requires i <= |rs|
  {
    if i == 0 then CONNECTED else StateAfter(StateAt(rs, password, i - 1), rs[i - 1], password)
  }

  function EffectAt(rs: seq<Request>, password: string, i: nat): Effect
    requires i < |rs|
  {
    EffectOf(StateAt(rs, password, i), rs[i], password)
  }

  lemma {:induction false} StatesValid(rs: seq<Request>, password: string, i: nat)
    requires i <= |rs|
    ensures ValidState(StateAt(rs, password, i))
  {
    if i > 0 { StatesValid(rs, password, i - 1); }
  }

  /** The login state never moves backwards. */
  lemma {:induction false} StatesRise(rs: seq<Request>, password: string, i: nat, j: nat)
    requires i <= j <= |rs|
    ensures StateAt(rs, password, i) <= StateAt(rs, password, j)
  {
    if i < j {
      StatesRise(rs, password, i, j - 1);
      StatesValid(rs, password, j - 1);
    }
  }

  lemma {:induction false} PastUsername(rs: seq<Request>, password: string, j: nat) returns (i: nat)
    requires j <= |rs| && StateAt(rs, password, j) != CONNECTED
    ensures i < j && rs[i].command == USER && EffectAt(rs, password, i) == AskPassword
  {
    if StateAt(rs, password, j - 1) == CONNECTED {
      i := j - 1;
    } else {
      i := PastUsername(rs, password, j - 1);
    }
  }

  lemma {:induction false} PastPassword(rs: seq<Request>, password: string, j: nat) returns (i: nat, k: nat)
    requires j <= |rs| && StateAt(rs, password, j) == AUTHENTICATED
    ensures i < k < j && rs[i].command == USER && EffectAt(rs, password, i) == AskPassword
    ensures rs[k] == Request(PASS, password) && EffectAt(rs, password, k) == LoggedIn
  {
    if StateAt(rs, password, j - 1) == AUTHENTICATED {
      i, k := PastPassword(rs, password, j - 1);
    } else {
      k := j - 1;
      i := PastUsername(rs, password, j - 1);
    }
  }

  lemma {:induction false} ParseMeans(line: string)
    ensures Parse(line).command != NO_COMMAND ==> Means(line, Parse(line).command)
    ensures Parse(line).command == PASS ==> |line| >= 8 && Parse(line).arg == line[5..]
  {
  }

  /** A reload or a change of the log filter needs an accepted `user` and, later, a `pass` with the password. */
  lemma {:induction false} GuardedCommands(lines: seq<string>, password: string, j: nat) returns (i: nat, k: nat)
    requires j < |lines|
    requires EffectAt(Parsed(lines), password, j).Reload? || EffectAt(Parsed(lines), password, j).LogRegexp?
    ensures i < k < j && Means(lines[i], USER) && EffectAt(Parsed(lines), password, i) == AskPassword
    ensures Means(lines[k], PASS) && lines[k][5..] == password && EffectAt(Parsed(lines), password, k) == LoggedIn
  {
    i, k := PastPassword(Parsed(lines), password, j);
    ParseMeans(lines[i]);
    ParseMeans(lines[k]);
  }

  // ----- what a connection answers, in terms of the lines it was sent

  ghost predicate UserBefore(lines: seq<string>, j: nat)
    requires j <= |lines|
  {
    exists i :: 0 <= i < j && Means(lines[i], USER)
  }

  ghost predicate Matches(line: string, password: string) { Means(line, PASS) && line[5..] == password }

  /** A `user` line and, later, a `pass` line with the password. */
  ghost predicate LoggedInBefore(lines: seq<string>, password: string, j: nat)
    requires j <= |lines|
  {
    exists k :: 0 <= k < j && UserBefore(lines, k) && Matches(lines[k], password)
  }

  /** What one line does in each state, by what it means. */
  lemma {:induction false} LineEffect(line: string, state: int, password: string)
    requires ValidState(state)
    ensures var effect := EffectOf(state, Parse(line), password);
      && (Means(line, QUIT) ==> effect == Goodbye)
      && (Means(line, STATUS) ==> effect == SendStatus)
      && (Means(line, HELP) ==> effect == SendHelp)
      && (Means(line, USER) ==> effect == if state == CONNECTED then AskPassword else NotRecognized)
      && (Means(line, PASS) ==>
            effect ==
              if state != USERNAME_RECEIVED then NotRecognized
              else if line[5..] == password then LoggedIn
              else LoginFailure)
      && (Means(line, RELOAD) ==> effect == if state == AUTHENTICATED then Reload else NotLoggedIn)
      && (Means(line, LOGREGEXP) ==>
            effect == if state == AUTHENTICATED then LogRegexp(line[10..]) else NotRecognized)
      && ((forall c :: !Means(line, c)) ==> effect == NotRecognized)
  {
    var c := Parse(line).command;
    if c == NO_COMMAND {
      assert forall d :: !Means(line, d) by {
        forall d | Means(line, d) ensures false { CommandOfMeans(line, d); }
      }
    } else {
      assert Means(line, c);
      forall d | Means(line, d) ensures d == c { OneMeaning(line, c, d); }
    }
  }

  lemma {:induction false} LineState(line: string, state: int, password: string)
    requires ValidState(state)
    ensures StateAfter(state, Parse(line), password) ==
      if state == CONNECTED && Means(line, USER) then USERNAME_RECEIVED
      else if state == USERNAME_RECEIVED && Matches(line, password) then AUTHENTICATED
      else state
  {
    LineEffect(line, state, password);
    var c := Parse(line).command;
    if c != NO_COMMAND { assert Means(line, c); }
  }

  /** The state that the lines so far have led to. */
  function LoginState(user: bool, login: bool): int {
    if login then AUTHENTICATED else if user then USERNAME_RECEIVED else CONNECTED
  }

  lemma {:induction false} NextLoginState(rs: seq<Request>, password: string, j: nat, line: string, user: bool,
                                          login: bool)
    requires j < |rs| && rs[j] == Parse(line) && StateAt(rs, password, j) == LoginState(user, login)
    requires login ==> user
    ensures StateAt(rs, password, j + 1)
         == LoginState(user || Means(line, USER), login || (user && Matches(line, password)))
  {
    LineState(line, LoginState(user, login), password);
  }

  /** The login state says which lines came before. */
  lemma {:induction false} StateExactly(lines: seq<string>, password: string, j: nat)
    requires j <= |lines|
    ensures StateAt(Parsed(lines), password, j) == LoginState(UserBefore(lines, j), LoggedInBefore(lines, password, j))
  {
    var n, user, login := 0, false, false;
    while n < j
      invariant n <= j && user == UserBefore(lines, n) && login == LoggedInBefore(lines, password, n)
      invariant StateAt(Parsed(lines), password, n) == LoginState(user, login)
    {
      BeforeNext(lines, password, n);
      NextLoginState(Parsed(lines), password, n, lines[n], user, login);
      user, login := user || Means(lines[n], USER), login || (user && Matches(lines[n], password));
      n := n + 1;
    }
  }

  lemma {:induction false} BeforeNext(lines: seq<string>, password: string, j: nat)
    requires j < |lines|
    ensures UserBefore(lines, j + 1) <==> UserBefore(lines, j) || Means(lines[j], USER)
    ensures LoggedInBefore(lines, password, j + 1) <==>
      LoggedInBefore(lines, password, j) || (UserBefore(lines, j) && Matches(lines[j], password))
    ensures LoggedInBefore(lines, password, j) ==> UserBefore(lines, j)
  {
    if LoggedInBefore(lines, password, j) {
      var k :| 0 <= k < j && UserBefore(lines, k) && Matches(lines[k], password);
      var i :| 0 <= i < k && Means(lines[i], USER);
    }
  }

  /**
   The whole of a connection: the effect of each line follows from the lines before it. A line
   that means `reload` reloads if and only if a `user` line and, later, a `pass` line with the
   password came before, and likewise for the log filter; nothing else reloads or sets it.
   */
  lemma {:induction false} EffectsExactly(lines: seq<string>, password: string, j: nat)
    requires j < |lines|
    ensures var line, effect := lines[j], EffectAt(Parsed(lines), password, j);
      var user, login := UserBefore(lines, j), LoggedInBefore(lines, password, j);
      && (effect == Reload <==> Means(line, RELOAD) && login)
      && (effect == NotLoggedIn <==> Means(line, RELOAD) && !login)
      && (effect.LogRegexp? <==> Means(line, LOGREGEXP) && login)
      && (effect.LogRegexp? ==> effect.pattern == line[10..])
      && (effect == AskPassword <==> Means(line, USER) && !user)
      && (effect == LoggedIn <==> user && !login && Matches(line, password))
      && (effect == LoginFailure <==> user && !login && Means(line, PASS) && line[5..] != password)
      && (effect == Goodbye <==> Means(line, QUIT))
      && (effect == SendStatus <==> Means(line, STATUS))
      && (effect == SendHelp <==> Means(line, HELP))
  {
    StateExactly(lines, password, j);
    var state := StateAt(Parsed(lines), password, j);
    StatesValid(Parsed(lines), password, j);
    BeforeNext(lines, password, j);
    LineEffect(lines[j], state, password);
    EffectMeans(lines[j], state, password);
  }

  /** Each effect but the refusal comes of the command it belongs to. */
  lemma {:induction false} EffectMeans(line: string, state: int, password: string)
    ensures var effect := EffectOf(state, Parse(line), password);
      && (effect == Reload || effect == NotLoggedIn ==> Means(line, RELOAD))
      && (effect.LogRegexp? ==> Means(line, LOGREGEXP))
      && (effect == AskPassword ==> Means(line, USER))
      && (effect == LoggedIn || effect == LoginFailure ==> Means(line, PASS))
      && (effect == Goodbye ==> Means(line, QUIT))
      && (effect == SendStatus ==> Means(line, STATUS))
      && (effect == SendHelp ==> Means(line, HELP))
  {
    ParseMeans(line);
  }

  /** A password a client can send at all: three characters or more, on one line that fits the buffer. */
  predicate Sendable(password: string) {
    3 <= |password| && |password| + 5 < BUFFER && forall i :: 0 <= i < |password| ==> !Ends(password[i])
  }

  ghost predicate CanLogIn(password: string) {
    exists lines :: (forall i :: 0 <= i < |lines| ==> ValidLine(lines[i]))
                    && StateAt(Parsed(lines), password, |lines|) == AUTHENTICATED
  }

  lemma {:induction false} PassedIsSendable(line: string, password: string)
    requires ValidLine(line) && |line| >= 8 && line[5..] == password
    ensures Sendable(password)
  {
    assert forall n :: 0 <= n < |password| ==> password[n] == line[n + 5];
  }

  lemma {:induction false} OnlySendable(password: string)
    requires CanLogIn(password)
    ensures Sendable(password)
  {
    var lines :| (forall i :: 0 <= i < |lines| ==> ValidLine(lines[i]))
                 && StateAt(Parsed(lines), password, |lines|) == AUTHENTICATED;
    var i, k := PastPassword(Parsed(lines), password, |lines|);
    ParseMeans(lines[k]);
    PassedIsSendable(lines[k], password);
  }

  lemma {:induction false} UserThenPass(user: string, password: string)
    ensures StateAt([Request(USER, user), Request(PASS, password)], password, 2) == AUTHENTICATED
  {
    assert StateAt([Request(USER, user), Request(PASS, password)], password, 1) == USERNAME_RECEIVED;
  }

  lemma {:induction false} PassLine(password: string)
    requires Sendable(password)
    ensures var pass := "pass " + password; ValidLine(pass) && Parse(pass) == Request(PASS, password)
  {
    var pass := "pass " + password;
    assert pass[5..] == password;
    forall i | 0 <= i < |pass| ensures !Ends(pass[i]) {
      if i >= 5 { assert pass[i] == password[i - 5]; }
    }
    assert Means(pass, PASS);
    CommandOfMeans(pass, PASS);
  }

  lemma {:induction false} UserLine()
    ensures ValidLine("user abc") && Parse("user abc") == Request(USER, "abc")
  {
    assert Means("user abc", USER);
    CommandOfMeans("user abc", USER);
  }

  lemma {:induction false} SendableLogsIn(password: string)
    requires Sendable(password)
    ensures CanLogIn(password)
  {
    PassLine(password);
    UserLine();
    var lines := ["user abc", "pass " + password];
    UserThenPass("abc", password);
    assert Parsed(lines) == [Request(USER, "abc"), Request(PASS, password)];
    assert |lines| == 2 && forall i :: 0 <= i < |lines| ==> ValidLine(lines[i]);
  }

  /** Login is possible with exactly the passwords that can be sent: a shorter one locks the commands for good. */
  lemma {:induction false} LoginPossible(password: string)
    ensures CanLogIn(password) <==> Sendable(password)
  {
    if CanLogIn(password) {
      OnlySendable(password);
    }
    if Sendable(password) {
      SendableLogsIn(password);
    }
  }
}
