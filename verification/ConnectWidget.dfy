/** ConnectWidget as the source writes it (kppp/connect.cpp): an object whose
    slots assign its fields and loop arrays.  Each slot is proved to compute
    the function of the same name in module LoginMachine. */
module ConnectWidget {
  import opened Text
  import opened Script
  import LM = LoginMachine
  import LS = LoginSafety

  class ConnectWidget {
    var vmain: LM.Phase
    var cfg: LM.Config          // comlist, arglist and the modem settings
    var scriptindex: nat
    var loopnest: int
    var loopend: bool
    var loopstartindex: array<nat>
    var loopstr: array<string>
    var expecting: bool
    var expectstr: string
    var readbuffer: string
    var scanning: bool
    var scanstr: string
    var scanbuffer: string
    var scanvar: string
    var pausing: bool
    var semaphore: bool
    var live: bool              // main timer and modem notifier are on
    var user: LM.User
    var sent: seq<string>
    ghost var past: LM.History

    ghost predicate Valid()
      reads this
    {
      LM.ValidConfig(cfg) && loopstartindex.Length == MAXLOOPNEST && loopstr.Length == MAXLOOPNEST
    }

    ghost function Abs(): (r: LM.State)
      reads this, loopstartindex, loopstr
    {
      LM.State(vmain, live, semaphore, pausing, scriptindex, expecting, expectstr, readbuffer,
               LM.Loops(loopnest, loopend, loopstartindex[..], loopstr[..]),
               LM.Scanner(scanning, scanstr, scanbuffer, scanvar), user, sent, past)
    }

    /** The slots below keep the script and the two arrays. */
    twostate predicate Steady()
      reads this
    {
      Valid() && cfg == old(cfg) && loopstartindex == old(loopstartindex) && loopstr == old(loopstr)
    }

    constructor (script: LM.Config, password: string)
      requires LM.ValidConfig(script)
      ensures Valid() && fresh(loopstartindex) && fresh(loopstr) && cfg == script
      ensures LM.Valid(Abs()) && loopnest == 0 && !loopend && scriptindex == 0 && readbuffer == ""
      ensures vmain == LM.Dialing && !expecting && !pausing && !semaphore && !scanning && !live
      ensures past == LM.History(LM.NoFault, false, false)
    {
      vmain, cfg, scriptindex, loopnest, loopend := LM.Dialing, script, 0, 0, false;
      loopstartindex := new nat[MAXLOOPNEST];
      loopstr := new string[MAXLOOPNEST](_ => "");
      expecting, expectstr, readbuffer := false, "", "";
      scanning, scanstr, scanbuffer, scanvar := false, "", "", "";
      pausing, semaphore, live := false, false, false;
      user := LM.User(LM.Idle, true, true, password);
      sent := [];
      past := LM.History(LM.NoFault, false, false);
    }

    method WriteLine(line: string)
      requires Valid()
      modifies this
      ensures Steady() && Abs() == LM.WriteLine(old(Abs()), line)
    {
      sent := sent + [line];
    }

    method Fail(ghost fault: LM.Fault)
      requires Valid()
      modifies this
      ensures Steady() && Abs() == LM.Fail(old(Abs()), fault)
    {
      vmain := LM.Halted;
      live := false;
      past := past.(fault := if past.fault == LM.NoFault then fault else past.fault);
    }

    method Advance()
      requires Valid()
      modifies this
      ensures Steady() && Abs() == old(Abs()).(scriptindex := old(Abs()).scriptindex + 1)
    {
      scriptindex := scriptindex + 1;
    }

    ghost method NoteLoop(early: bool)
      requires Valid()
      modifies this`past
      ensures Steady() && Abs() == LM.NoteLoop(old(Abs()), early)
    {
      past := past.(earlyLoop := past.earlyLoop || early);
    }

    ghost method NoteWait(early: bool)
      requires Valid()
      modifies this`past
      ensures Steady() && Abs() == LM.NoteWait(old(Abs()), early)
    {
      past := past.(earlyWait := past.earlyWait || early);
    }

    method FinishScan()
      requires Valid()
      modifies this
      ensures Steady() && Abs() == old(Abs()).(scan := LM.FinishScan(old(Abs()).scan))
    {
      if scanning && Contains(scanbuffer, scanstr)
         && scanbuffer != "" && scanbuffer[|scanbuffer| - 1] in {'\n', '\r'}
      {
        scanning := false;
        scanvar := LM.StripWhiteSpace(After(scanbuffer, scanstr));
      }
    }

    /** The expected string has come in. */
    method TestExpected()
      requires Valid() && expecting
      modifies this
      ensures Steady() && Abs() == LM.TakeExpected(old(Abs()))
    {
      if Contains(readbuffer, expectstr) {
        expecting := false;
        readbuffer := After(readbuffer, expectstr);
        if loopend {
          loopend := false;
        }
      }
    }

    /** The string of a pending loop end has come in. */
    method TestLoop()
      requires Valid()
      modifies this
      ensures Steady() && Abs() == LM.LoopBack(old(Abs()))
    {
      if loopend {
        if !LM.InRange(loopnest) {
          Fail(LM.OutOfRange);
        } else if Contains(readbuffer, loopstr[loopnest]) {
          JumpBack();
        }
      }
    }

    method JumpBack()
      requires Valid() && LM.InRange(loopnest)
      modifies this
      ensures Steady()
      ensures var st := old(Abs());
              Abs() == st.(expecting := false, readbuffer := "", scriptindex := st.loops.start[st.loops.nest],
                           loops := st.loops.(end := false, nest := st.loops.nest + 1))
    {
      DropBuffer();
      scriptindex := loopstartindex[loopnest];
      loopend := false;
      loopnest := loopnest + 1;
    }

    method DropBuffer()
      requires Valid()
      modifies this
      ensures Steady() && Abs() == old(Abs()).(expecting := false, readbuffer := "")
    {
      expecting := false;
      readbuffer := "";
    }

    method CheckBuffers()
      requires Valid()
      modifies this, loopstartindex, loopstr
      ensures Steady() && Abs() == LM.CheckBuffers(old(cfg), old(Abs()))
      decreases |readbuffer|, LM.Bit(loopend), LM.Rem(cfg, Abs()), if expectstr == "" then 2 else 0, 0
    {
      FinishScan();
      if expecting {
        TestExpected();
        TestLoop();
        if !expecting && live {
          TimerEvent();
        }
      }
    }

    method SetExpect(n: string)
      requires Valid()
      modifies this, loopstartindex, loopstr
      ensures Steady() && Abs() == LM.SetExpect(old(cfg), old(Abs()), n)
      decreases |readbuffer|, LM.Bit(loopend), LM.Rem(cfg, Abs()), if n == "" then 2 else 0, 1
    {
      expecting := true;
      expectstr := n;
      CheckBuffers();
    }

    method TimerEvent()
      requires Valid()
      modifies this, loopstartindex, loopstr
      ensures Steady() && Abs() == LM.TimerEvent(old(cfg), old(Abs()))
      decreases |readbuffer|, LM.Bit(loopend), LM.Rem(cfg, Abs()), 1, 2
    {
      if semaphore || pausing {
        return;
      }
      if vmain == LM.Scripting && !expecting && !scanning {
        RunCommand();
        return;
      }
      if vmain == LM.Answering && !expecting {
        RunAnswering();
        return;
      }
      if vmain == LM.Finished && !expecting {
        semaphore := true;
      }
    }

    /** The subroutine of the Answer command. */
    method RunAnswering()
      requires Valid() && vmain == LM.Answering && !expecting && !semaphore && !pausing
      modifies this, loopstartindex, loopstr
      ensures Steady() && Abs() == LM.TimerEvent(old(cfg), old(Abs()))
      decreases |readbuffer|, LM.Bit(loopend), LM.Rem(cfg, Abs()), 1, 0
    {
      ghost var early := LM.Immediate(Abs(), cfg.answerResp);
      WriteLine(cfg.answerStr);
      SetExpect(cfg.answerResp);
      NoteWait(early);
      vmain := LM.Scripting;
      Advance();
    }

    /** The script part of `timerEvent`. */
    method RunCommand()
      requires Valid()
      modifies this, loopstartindex, loopstr
      ensures Steady() && Abs() == LM.RunCommand(old(cfg), old(Abs()))
      decreases |readbuffer|, LM.Bit(loopend), LM.Rem(cfg, Abs()), 1, 1
    {
      if scriptindex >= |cfg.comlist| {
        vmain := LM.Finished;
        return;
      }
      var command := cfg.comlist[scriptindex];
      if command == Hangup {
        RunHangup();
      } else if command == Answer {
        RunAnswer();
      } else if command == Expect {
        RunExpect();
      } else if command == LoopStart {
        RunLoopStart();
      } else if command == LoopEnd {
        RunLoopEnd();
      } else {
        RunSimple(command, cfg.arglist[scriptindex]);
      }
    }

    ghost predicate At(command: Command)
      reads this
    {
      Valid() && scriptindex < |cfg.comlist| && cfg.comlist[scriptindex] == command
    }

    method RunExpect()
      requires At(Expect)
      modifies this, loopstartindex, loopstr
      ensures Steady() && Abs() == LM.RunCommand(old(cfg), old(Abs()))
      decreases |readbuffer|, LM.Bit(loopend), LM.Rem(cfg, Abs()), 1, 0
    {
      ghost var st := Abs();
      var argument := cfg.arglist[scriptindex];
      scriptindex := scriptindex + 1;
      assert Abs() == LM.Prepare(cfg, st);
      SetExpect(argument);
      assert Abs() == LM.Complete(cfg, st, LM.SetExpect(cfg, LM.Prepare(cfg, st), argument));
    }

    method RunHangup()
      requires At(Hangup)
      modifies this, loopstartindex, loopstr
      ensures Steady() && Abs() == LM.RunCommand(old(cfg), old(Abs()))
      decreases |readbuffer|, LM.Bit(loopend), LM.Rem(cfg, Abs()), 1, 0
    {
      WriteLine(cfg.hangupStr);
      ghost var early := LM.Immediate(Abs(), cfg.hangupResp);
      SetExpect(cfg.hangupResp);
      NoteWait(early);
      Advance();
    }

    method RunAnswer()
      requires At(Answer)
      modifies this, loopstartindex, loopstr
      ensures Steady() && Abs() == LM.RunCommand(old(cfg), old(Abs()))
      decreases |readbuffer|, LM.Bit(loopend), LM.Rem(cfg, Abs()), 1, 0
    {
      ghost var early := LM.Immediate(Abs(), cfg.ringResp);
      SetExpect(cfg.ringResp);
      NoteWait(early);
      vmain := LM.Answering;
    }

    method RunLoopStart()
      requires At(LoopStart)
      modifies this, loopstartindex, loopstr
      ensures Steady() && Abs() == LM.RunCommand(old(cfg), old(Abs()))
      decreases |readbuffer|, LM.Bit(loopend), LM.Rem(cfg, Abs()), 1, 0
    {
      var argument := cfg.arglist[scriptindex];
      Advance();
      if loopnest > MAXLOOPNEST - 2 {
        Fail(LM.TooDeep);
      } else {
        AwaitLoop(argument);
        PushLoop(argument);
      }
    }

    method AwaitLoop(argument: string)
      requires Valid()
      modifies this, loopstartindex, loopstr
      ensures Steady()
      ensures Abs() == LM.NoteLoop(LM.SetExpect(old(cfg), old(Abs()), argument), LM.Immediate(old(Abs()), argument))
      decreases |readbuffer|, LM.Bit(loopend), LM.Rem(cfg, Abs()), if argument == "" then 2 else 0, 2
    {
      ghost var early := LM.Immediate(Abs(), argument);
      SetExpect(argument);
      NoteLoop(early);
    }

    method RunLoopEnd()
      requires At(LoopEnd)
      modifies this, loopstartindex, loopstr
      ensures Steady() && Abs() == LM.RunCommand(old(cfg), old(Abs()))
      decreases |readbuffer|, LM.Bit(loopend), LM.Rem(cfg, Abs()), 1, 0
    {
      if loopnest <= 0 {
        Fail(LM.NoStart);
      } else {
        EndLoop(cfg.arglist[scriptindex]);
      }
    }

    method EndLoop(argument: string)
      requires At(LoopEnd) && loopnest > 0 && argument == cfg.arglist[scriptindex]
      modifies this, loopstartindex, loopstr
      ensures Steady()
      ensures Abs() == LM.Complete(old(cfg), old(Abs()),
                                   LM.SetExpect(old(cfg), LM.Prepare(old(cfg), old(Abs())), argument))
      decreases |readbuffer|, LM.Bit(loopend), LM.Rem(cfg, Abs()), 0
    {
      Advance();
      AwaitLoop(argument);
      PopLoop();
    }

    method PopLoop()
      requires Valid()
      modifies this
      ensures Steady()
      ensures Abs() == old(Abs()).(loops := old(Abs()).loops.(nest := old(Abs()).loops.nest - 1, end := true))
    {
      loopnest := loopnest - 1;
      loopend := true;
    }

    method PushLoop(argument: string)
      requires Valid()
      modifies this, loopstartindex, loopstr
      ensures Steady() && Abs() == LM.EnterLoop(old(Abs()), argument)
    {
      if !LM.InRange(loopnest) {
        Fail(LM.OutOfRange);
      } else {
        loopstartindex[loopnest] := scriptindex;
        loopstr[loopnest] := argument;
        loopend := false;
        loopnest := loopnest + 1;
      }
    }

    method SavePassword(argument: string)
      requires Valid()
      modifies this
      ensures Steady()
      ensures Abs() == if Lower(argument) == "password" then
                         var was := old(Abs());
                         was.(user := was.user.(password := was.scan.variable, firstrunPW := true))
                       else old(Abs())
    {
      if Lower(argument) == "password" {
        user := user.(password := scanvar, firstrunPW := true);
      }
    }

    method SetScan(n: string)
      requires Valid()
      modifies this
      ensures Steady()
      ensures Abs() == old(Abs()).(scan := LM.Scanner(true, n, "", old(Abs()).scan.variable))
    {
      scanning := true;
      scanstr := n;
      scanbuffer := "";
    }

    /** The commands that do not wait for the modem. */
    method RunSimple(command: Command, argument: string)
      requires At(command) && argument == cfg.arglist[scriptindex]
      requires command !in {Expect, Hangup, Answer, LoopStart, LoopEnd}
      modifies this
      ensures Steady() && Abs() == LM.Simple(old(cfg), old(Abs()))
    {
      if command == Scan {
        RunScan(argument);
      } else if command == Save {
        RunSave(argument);
      } else if command == Send || command == SendNoEcho {
        RunSend(command, argument);
      } else if command == Pause {
        RunPause();
      } else if command == Timeout {
        Advance();
      } else if !command.Unknown? {
        RunUserCommand(command, argument);
      }
    }

    method RunScan(argument: string)
      requires At(Scan) && argument == cfg.arglist[scriptindex]
      modifies this
      ensures Steady() && Abs() == LM.Simple(old(cfg), old(Abs()))
    {
      SetScan(argument);
      Advance();
    }

    method RunSave(argument: string)
      requires At(Save) && argument == cfg.arglist[scriptindex]
      modifies this
      ensures Steady() && Abs() == LM.Simple(old(cfg), old(Abs()))
    {
      SavePassword(argument);
      Advance();
    }

    method RunSend(command: Command, argument: string)
      requires At(command) && command in {Send, SendNoEcho} && argument == cfg.arglist[scriptindex]
      modifies this
      ensures Steady() && Abs() == LM.Simple(old(cfg), old(Abs()))
    {
      WriteLine(argument);
      Advance();
    }

    method RunPause()
      requires At(Pause)
      modifies this
      ensures Steady() && Abs() == LM.Simple(old(cfg), old(Abs()))
    {
      pausing := true;
      Advance();
    }

    /** The commands that answer for the user or ask him. */
    method RunUserCommand(command: Command, argument: string)
      requires At(command) && command in {ID, Password, Prompt, PWPrompt}
      requires argument == cfg.arglist[scriptindex]
      modifies this
      ensures Steady() && Abs() == LM.Simple(old(cfg), old(Abs()))
    {
      if command == ID && cfg.username != "" && user.firstrunID {
        SendOnce(cfg.username, user.(firstrunID := false));
      } else if command == Password && user.password != "" && user.firstrunPW {
        SendOnce(user.password, user.(firstrunPW := false));
      } else {
        AskUser();
      }
    }

    method SendOnce(line: string, user: LM.User)
      requires Valid()
      modifies this
      ensures Steady() && Abs() == LM.SendOnce(old(Abs()), line, user)
    {
      WriteLine(line);
      this.user := user;
      scriptindex := scriptindex + 1;
    }

    method AskUser()
      requires Valid()
      modifies this
      ensures Steady() && Abs() == LM.AskUser(old(Abs()))
    {
      match user.prompt
      case Idle => user := user.(prompt := LM.Asking);
      case Asking =>
      case Entered(text) =>
        WriteLine(text);
        user := user.(prompt := LM.Idle);
        scriptindex := scriptindex + 1;
    }

    method ReadChar(c: char)
      requires Valid()
      modifies this, loopstartindex, loopstr
      ensures Steady() && Abs() == LM.ReadChar(old(cfg), old(Abs()), c)
    {
      if semaphore {
        return;
      }
      readbuffer := readbuffer + [c];
      if scanning {
        scanbuffer := scanbuffer + [c];
      }
      CheckBuffers();
    }

    method ScriptTimedOut()
      requires Valid()
      modifies this
      ensures Steady() && Abs() == LM.ScriptTimedOut(old(Abs()))
    {
      if vmain == LM.Halted || semaphore {
        return;
      }
      user := user.(prompt := LM.Idle);
      vmain := LM.Dialing;
    }

    method Init(script: LM.Config, modemOpen: bool)
      requires Valid() && LM.ValidConfig(script)
      modifies this
      ensures Valid() && cfg == script && loopstartindex == old(loopstartindex) && loopstr == old(loopstr)
      ensures Abs() == LM.Init(old(Abs()), modemOpen)
    {
      ResetSession();
      cfg := script;
      StartModem(modemOpen);
    }

    method ResetSession()
      requires Valid()
      modifies this
      ensures Steady()
      ensures Abs() == old(Abs()).(
                pausing := false, scriptindex := 0, expecting := false,
                scan := old(Abs()).scan.(on := false, variable := ""),
                user := old(Abs()).user.(firstrunID := true, firstrunPW := true))
    {
      ResetFlags();
      ResetScan();
      user := user.(firstrunID := true, firstrunPW := true);
    }

    method ResetFlags()
      requires Valid()
      modifies this
      ensures Steady() && Abs() == old(Abs()).(pausing := false, scriptindex := 0, expecting := false)
    {
      expecting := false;
      pausing := false;
      scriptindex := 0;
    }

    method ResetScan()
      requires Valid()
      modifies this
      ensures Steady()
      ensures Abs() == old(Abs()).(scan := old(Abs()).scan.(on := false, variable := ""))
    {
      scanning := false;
      scanvar := "";
    }

    method StartModem(modemOpen: bool)
      requires Valid()
      modifies this
      ensures Steady()
      ensures Abs() == old(Abs()).(
                phase := if modemOpen then LM.Dialing else LM.Halted, live := modemOpen,
                semaphore := if modemOpen then false else old(Abs()).semaphore)
    {
      live := modemOpen;
      if modemOpen {
        vmain, semaphore := LM.Dialing, false;
      } else {
        vmain := LM.Halted;
      }
    }

    /** One call of the Qt event loop. */
    method Handle(e: LM.Event)
      requires Valid()
      modifies this, loopstartindex, loopstr
      ensures Steady() && Abs() == LM.Step(old(cfg), old(Abs()), e)
    {
      if !live {
        return;
      }
      match e
      case Tick => TimerEvent();
      case Char(c) => ReadChar(c);
      case PauseEnd => pausing := false;
      case TimedOut => ScriptTimedOut();
      case UserEnters(text) =>
        if user.prompt == LM.Asking {
          user := user.(prompt := LM.Entered(text));
        }
      case Cancel =>
        live := false;
        user := user.(prompt := LM.Idle);
      case DialExpect(n) =>
        if vmain == LM.Dialing && !semaphore && !pausing {
          SetExpect(n);
        }
      case DialBusy => HandleDial(e);
      case DialGiveUp => HandleDial(e);
      case DialDone => HandleDial(e);
    }

    method HandleDial(e: LM.Event)
      requires Valid() && live && (e.DialBusy? || e.DialGiveUp? || e.DialDone?)
      modifies this
      ensures Steady() && Abs() == LM.Step(old(cfg), old(Abs()), e)
    {
      if vmain == LM.Dialing {
        if e.DialBusy? {
          pausing := true;
        } else if e.DialGiveUp? {
          vmain := LM.Halted;
        } else if !expecting && !pausing && !semaphore {
          vmain := LM.Scripting;
        }
      }
    }
  }

  /** A whole session on a fresh widget with a script the editor let through. */
  method RunSession(w: ConnectWidget, events: seq<LM.Event>)
    requires w.Valid() && LS.SessionStart(0, w.Abs())
    requires Balanced(w.cfg.comlist) && |w.cfg.comlist| <= MAX_SCRIPT_ENTRIES - 1
    modifies w, w.loopstartindex, w.loopstr
    ensures w.Valid() && w.cfg == old(w.cfg)
    ensures w.Abs() == LM.Run(old(w.cfg), old(w.Abs()), events)
    ensures w.past.earlyLoop || w.past.earlyWait
            || (w.past.fault == LM.NoFault && w.scriptindex <= |w.cfg.comlist|
                && w.loopnest == Depth(w.cfg.comlist, w.scriptindex))
  {
    ghost var st := w.Abs();
    for i := 0 to |events|
      invariant w.Valid() && w.cfg == old(w.cfg)
      invariant w.loopstartindex == old(w.loopstartindex) && w.loopstr == old(w.loopstr)
      invariant LM.Run(w.cfg, st, events) == LM.Run(w.cfg, w.Abs(), events[i..])
    {
      assert events[i..][1..] == events[i + 1..];
      w.Handle(events[i]);
    }
    LS.CheckedScriptIsSafe(w.cfg, st, events);
  }
}
