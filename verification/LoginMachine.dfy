/** The login-script interpreter of kppp (kppp/connect.cpp) as a machine on
    values: one function per slot of ConnectWidget, one event per call the Qt
    event loop makes.  Module ConnectWidget shows the imperative code computes
    these functions.

    `setExpect` looks into the buffer at once and, when the string is already
    there, re-enters `timerEvent` before its caller has finished.  The machine
    does the same.  Two history flags record when that happened at a command
    that still had bookkeeping to do: `earlyLoop` at LoopStart or LoopEnd,
    `earlyWait` at Hangup or Answer. */
module LoginMachine {
  import opened Text
  import opened Script

  /** The values of `vmain`: Dialing stands for 0, 1, 3, 4, 5 and 100 to 102,
      Scripting for 2, Answering for 150, Finished for 10, Halted for 20. */
  datatype Phase = Dialing | Scripting | Answering | Finished | Halted

  datatype Fault = NoFault | TooDeep | NoStart | OutOfRange

  /** The password prompt window: consumed and hidden, visible, or closed by
      the user with a text that was not read yet. */
  datatype PromptState = Idle | Asking | Entered(text: string)

  datatype Config = Config(
    comlist: seq<Command>, arglist: seq<string>,
    hangupStr: string, hangupResp: string, ringResp: string,
    answerStr: string, answerResp: string, username: string)

  /** The two lists are filled in step; an empty modem response would make the
      source re-enter itself without end. */
  ghost predicate ValidConfig(cfg: Config) {
    && |cfg.comlist| == |cfg.arglist|
    && cfg.hangupResp != "" && cfg.ringResp != "" && cfg.answerResp != ""
  }

  /** `loopnest`, `loopend`, `loopstartindex[]` and `loopstr[]`. */
  datatype Loops = Loops(nest: int, end: bool, start: seq<nat>, str: seq<string>)

  /** `scanning`, `scanstr`, `scanbuffer` and `scanvar`. */
  datatype Scanner = Scanner(on: bool, str: string, buffer: string, variable: string)

  datatype User = User(prompt: PromptState, firstrunID: bool, firstrunPW: bool, password: string)

  datatype History = History(fault: Fault, earlyLoop: bool, earlyWait: bool)

  datatype State = State(
    phase: Phase, live: bool, semaphore: bool, pausing: bool, scriptindex: nat,
    expecting: bool, expectstr: string, readbuffer: string,
    loops: Loops, scan: Scanner, user: User, sent: seq<string>, past: History)

  ghost predicate Valid(st: State) {
    |st.loops.start| == MAXLOOPNEST && |st.loops.str| == MAXLOOPNEST
  }

  /** History flags are never taken back. */
  ghost predicate Kept(st: State, r: State) {
    && (st.past.earlyLoop ==> r.past.earlyLoop)
    && (st.past.earlyWait ==> r.past.earlyWait)
  }

  // ----- helpers of the slots

  function StripWhiteSpace(s: string): string {
    if s == "" then ""
    else if IsSpace(s[0]) then StripWhiteSpace(s[1..])
    else if IsSpace(s[|s| - 1]) then StripWhiteSpace(s[..|s| - 1])
    else s
  }

  function WriteLine(st: State, line: string): State {
    st.(sent := st.sent + [line])
  }

  predicate InRange(i: int) {
    0 <= i < MAXLOOPNEST
  }

  /** Stop with an error; only the first one is recorded.  OutOfRange stands
      for an access outside the loop arrays. */
  function Fail(st: State, fault: Fault): State {
    st.(phase := Halted, live := false,
        past := st.past.(fault := if st.past.fault == NoFault then fault else st.past.fault))
  }

  /** End of a Scan: the awaited text is in the buffer and the line is over. */
  function FinishScan(scan: Scanner): Scanner {
    if scan.on && Contains(scan.buffer, scan.str)
       && scan.buffer != "" && scan.buffer[|scan.buffer| - 1] in {'\n', '\r'}
    then scan.(on := false, variable := StripWhiteSpace(After(scan.buffer, scan.str)))
    else scan
  }

  /** First half of the expect test. */
  function TakeExpected(st: State): (r: State) {
    if Contains(st.readbuffer, st.expectstr)
    then st.(expecting := false, readbuffer := After(st.readbuffer, st.expectstr),
             loops := st.loops.(end := false))
    else st
  }

  /** Second half: a pending LoopEnd jumps back when the loop's string comes in. */
  function LoopBack(st: State): (r: State)
    requires Valid(st)
  {
    if !st.loops.end then st
    else if !InRange(st.loops.nest) then Fail(st, OutOfRange)
    else if !Contains(st.readbuffer, st.loops.str[st.loops.nest]) then st
    else st.(expecting := false, readbuffer := "",
             scriptindex := st.loops.start[st.loops.nest],
             loops := st.loops.(end := false, nest := st.loops.nest + 1))
  }

  /** Will `setExpect(n)` find its string, or the loop string, at once? */
  predicate Immediate(st: State, n: string)
    requires Valid(st)
  {
    || Contains(st.readbuffer, n)
    || (st.loops.end && InRange(st.loops.nest) && Contains(st.readbuffer, st.loops.str[st.loops.nest]))
  }

  function Rem(cfg: Config, st: State): nat {
    if st.scriptindex <= |cfg.comlist| then |cfg.comlist| - st.scriptindex else 0
  }

  function Bit(b: bool): nat {
    if b then 1 else 0
  }

  // ----- the slots

  function CheckBuffers(cfg: Config, st: State): (r: State)
    requires ValidConfig(cfg) && Valid(st)
    ensures Valid(r) && Kept(st, r)
    decreases |st.readbuffer|, Bit(st.loops.end), Rem(cfg, st), if st.expectstr == "" then 2 else 0, 0
  {
    var s0 := st.(scan := FinishScan(st.scan));
    if !s0.expecting then s0
    else
      var s1 := LoopBack(TakeExpected(s0));
      if s1.expecting || !s1.live then s1 else TimerEvent(cfg, s1)
  }

  function SetExpect(cfg: Config, st: State, n: string): (r: State)
    requires ValidConfig(cfg) && Valid(st)
    ensures Valid(r) && Kept(st, r)
    decreases |st.readbuffer|, Bit(st.loops.end), Rem(cfg, st), if n == "" then 2 else 0, 1
  {
    CheckBuffers(cfg, st.(expecting := true, expectstr := n))
  }

  function TimerEvent(cfg: Config, st: State): (r: State)
    requires ValidConfig(cfg) && Valid(st)
    ensures Valid(r) && Kept(st, r)
    decreases |st.readbuffer|, Bit(st.loops.end), Rem(cfg, st), 1, 2
  {
    if st.semaphore || st.pausing || st.expecting then st
    else match st.phase
      case Dialing => st
      case Halted => st
      case Scripting => if st.scan.on then st else RunCommand(cfg, st)
      case Answering => Answered(cfg, st, SetExpect(cfg, WriteLine(st, cfg.answerStr), cfg.answerResp))
      case Finished => st.(semaphore := true)
  }

  function RunCommand(cfg: Config, st: State): (r: State)
    requires ValidConfig(cfg) && Valid(st)
    ensures Valid(r) && Kept(st, r)
    decreases |st.readbuffer|, Bit(st.loops.end), Rem(cfg, st), 1, 0
  {
    if st.scriptindex >= |cfg.comlist| then st.(phase := Finished)
    else if Waits(cfg, st) then
      Complete(cfg, st, SetExpect(cfg, Prepare(cfg, st), Awaited(cfg, st)))
    else Simple(cfg, st)
  }

  /** Does the command at `scriptindex` get as far as calling `setExpect`? */
  predicate Waits(cfg: Config, st: State)
    requires |cfg.comlist| == |cfg.arglist| && st.scriptindex < |cfg.comlist|
  {
    match cfg.comlist[st.scriptindex]
    case Expect => true
    case Hangup => true
    case Answer => true
    case LoopStart => st.loops.nest <= MAXLOOPNEST - 2
    case LoopEnd => st.loops.nest > 0
    case _ => false
  }

  /** The string it waits for. */
  function Awaited(cfg: Config, st: State): string
    requires |cfg.comlist| == |cfg.arglist| && st.scriptindex < |cfg.comlist|
  {
    match cfg.comlist[st.scriptindex]
    case Hangup => cfg.hangupResp
    case Answer => cfg.ringResp
    case _ => cfg.arglist[st.scriptindex]
  }

  /** What it does before calling `setExpect`. */
  function Prepare(cfg: Config, st: State): (r: State)
    requires |cfg.comlist| == |cfg.arglist| && st.scriptindex < |cfg.comlist|
    ensures r.readbuffer == st.readbuffer && r.loops == st.loops && r.past == st.past
    ensures r.scriptindex == st.scriptindex + if cfg.comlist[st.scriptindex] in {Hangup, Answer} then 0 else 1
  {
    match cfg.comlist[st.scriptindex]
    case Hangup => WriteLine(st, cfg.hangupStr)
    case Answer => st
    case _ => st.(scriptindex := st.scriptindex + 1)
  }

  /** What it still does once `setExpect` has come back with state `s`. */
  function Complete(cfg: Config, st: State, s: State): (r: State)
    requires |cfg.comlist| == |cfg.arglist| && st.scriptindex < |cfg.comlist|
    requires Valid(st) && Valid(s)
    ensures Valid(r) && Kept(s, r)
    ensures r.readbuffer == s.readbuffer && r.expecting == s.expecting && r.expectstr == s.expectstr
    ensures r.scriptindex == s.scriptindex + if cfg.comlist[st.scriptindex] == Hangup then 1 else 0
  {
    var early := Immediate(Prepare(cfg, st), Awaited(cfg, st));
    match cfg.comlist[st.scriptindex]
    case Hangup => NoteWait(s, early).(scriptindex := s.scriptindex + 1)
    case Answer => NoteWait(s, early).(phase := Answering)
    case LoopStart => EnterLoop(NoteLoop(s, early), cfg.arglist[st.scriptindex])
    case LoopEnd => NoteLoop(s, early).(loops := s.loops.(nest := s.loops.nest - 1, end := true))
    case _ => s
  }

  /** The same for the Answer subroutine (`vmain` 150). */
  function Answered(cfg: Config, st: State, s: State): (r: State)
    requires Valid(st)
  {
    NoteWait(s, Immediate(st, cfg.answerResp)).(phase := Scripting, scriptindex := s.scriptindex + 1)
  }

  function NoteLoop(s: State, early: bool): State {
    s.(past := s.past.(earlyLoop := s.past.earlyLoop || early))
  }

  function NoteWait(s: State, early: bool): State {
    s.(past := s.past.(earlyWait := s.past.earlyWait || early))
  }

  function EnterLoop(s: State, arg: string): (r: State)
    requires Valid(s)
    ensures Valid(r) && Kept(s, r)
    ensures r.readbuffer == s.readbuffer && r.expecting == s.expecting && r.expectstr == s.expectstr
    ensures r.scriptindex == s.scriptindex
  {
    var l := s.loops;
    if !InRange(l.nest) then Fail(s, OutOfRange)
    else s.(loops := Loops(l.nest + 1, false, l.start[l.nest := s.scriptindex], l.str[l.nest := arg]))
  }

  /** The commands that do not wait for the modem. */
  function Simple(cfg: Config, st: State): (r: State)
    requires |cfg.comlist| == |cfg.arglist| && st.scriptindex < |cfg.comlist|
    ensures r.loops == st.loops && Kept(st, r)
    ensures r.readbuffer == st.readbuffer && r.expecting == st.expecting && r.scriptindex >= st.scriptindex
    ensures cfg.comlist[st.scriptindex] !in {LoopStart, LoopEnd} ==> Passive(st, r)
  {
    var arg := cfg.arglist[st.scriptindex];
    var next := st.(scriptindex := st.scriptindex + 1);
    match cfg.comlist[st.scriptindex]
    case Scan => next.(scan := Scanner(true, arg, "", st.scan.variable))
    case Save =>
      if Lower(arg) == "password"
      then next.(user := st.user.(password := st.scan.variable, firstrunPW := true))
      else next
    case Send => WriteLine(next, arg)
    case SendNoEcho => WriteLine(next, arg)
    case Pause => next.(pausing := true)
    case Timeout => next
    case ID =>
      if cfg.username != "" && st.user.firstrunID
      then SendOnce(st, cfg.username, st.user.(firstrunID := false))
      else AskUser(st)
    case Password =>
      if st.user.password != "" && st.user.firstrunPW
      then SendOnce(st, st.user.password, st.user.(firstrunPW := false))
      else AskUser(st)
    case Prompt => AskUser(st)
    case PWPrompt => AskUser(st)
    case LoopStart => Fail(next, TooDeep)
    case LoopEnd => Fail(st, NoStart)
    case _ => st
  }

  function SendOnce(st: State, line: string, user: User): (r: State)
    ensures Passive(st, r)
  {
    WriteLine(st, line).(user := user, scriptindex := st.scriptindex + 1)
  }

  /** The script moved on by at most one entry and nothing the modem side
      looks at has changed. */
  ghost predicate Passive(st: State, r: State) {
    && (r.scriptindex == st.scriptindex || r.scriptindex == st.scriptindex + 1)
    && r.past == st.past && r.loops == st.loops
    && r.phase == st.phase && r.live == st.live && r.semaphore == st.semaphore
    && r.expecting == st.expecting && r.readbuffer == st.readbuffer
  }

  /** Show the prompt; when the user has closed it, send the text and go on. */
  function AskUser(st: State): (r: State)
    ensures Passive(st, r)
  {
    match st.user.prompt
    case Idle => st.(user := st.user.(prompt := Asking))
    case Asking => st
    case Entered(text) =>
      WriteLine(st, text).(user := st.user.(prompt := Idle), scriptindex := st.scriptindex + 1)
  }

  function ReadChar(cfg: Config, st: State, c: char): (r: State)
    requires ValidConfig(cfg) && Valid(st)
    ensures Valid(r) && Kept(st, r)
  {
    if st.semaphore then st
    else CheckBuffers(cfg, Receive(st, c))
  }

  function Receive(st: State, c: char): State {
    st.(readbuffer := st.readbuffer + [c],
        scan := if st.scan.on then st.scan.(buffer := st.scan.buffer + [c]) else st.scan)
  }

  function ScriptTimedOut(st: State): State {
    if st.phase == Halted || st.semaphore then st
    else st.(user := st.user.(prompt := Idle), phase := Dialing)
  }

  /** `init` of a new session: neither `loopnest`, `loopend`, the loop arrays
      nor `readbuffer` are reset. */
  function Init(st: State, modemOpen: bool): State {
    st.(phase := if modemOpen then Dialing else Halted, live := modemOpen,
        semaphore := if modemOpen then false else st.semaphore,
        pausing := false, scriptindex := 0, expecting := false,
        scan := st.scan.(on := false, variable := ""),
        user := st.user.(firstrunID := true, firstrunPW := true))
  }

  // ----- events and runs

  /** Dial events stand for the modem states: they may wait for any response,
      pause before redialling, give up, or (DialDone) reach script mode. */
  datatype Event =
    | Tick | Char(c: char) | PauseEnd | TimedOut | UserEnters(text: string) | Cancel
    | DialExpect(n: string) | DialBusy | DialGiveUp | DialDone

  function Step(cfg: Config, st: State, e: Event): (r: State)
    requires ValidConfig(cfg) && Valid(st)
    ensures Valid(r) && Kept(st, r)
  {
    if !st.live then st
    else match e
      case Tick => TimerEvent(cfg, st)
      case Char(c) => ReadChar(cfg, st, c)
      case PauseEnd => st.(pausing := false)
      case TimedOut => ScriptTimedOut(st)
      case UserEnters(text) =>
        if st.user.prompt == Asking then st.(user := st.user.(prompt := Entered(text))) else st
      case Cancel => st.(live := false, user := st.user.(prompt := Idle))
      case DialExpect(n) =>
        if st.phase == Dialing && !st.semaphore && !st.pausing then SetExpect(cfg, st, n) else st
      case DialBusy => if st.phase == Dialing then st.(pausing := true) else st
      case DialGiveUp => if st.phase == Dialing then st.(phase := Halted) else st
      case DialDone =>
        if st.phase == Dialing && !st.expecting && !st.pausing && !st.semaphore
        then st.(phase := Scripting) else st
  }

  function Run(cfg: Config, st: State, events: seq<Event>): (r: State)
    requires ValidConfig(cfg) && Valid(st)
    ensures Valid(r) && Kept(st, r)
    decreases |events|
  {
    if events == [] then st else Run(cfg, Step(cfg, st, events[0]), events[1..])
  }

  /** A session: `init` with a script, then events. */
  datatype Session = Session(cfg: Config, modemOpen: bool, events: seq<Event>)

  function RunSessions(st: State, sessions: seq<Session>): (r: State)
    requires Valid(st) && forall s <- sessions :: ValidConfig(s.cfg)
    ensures Valid(r) && Kept(st, r)
    decreases |sessions|
  {
    if sessions == [] then st
    else RunSessions(Run(sessions[0].cfg, Init(st, sessions[0].modemOpen), sessions[0].events), sessions[1..])
  }
}
