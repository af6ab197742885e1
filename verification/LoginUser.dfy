/** What a login script sends of what it has read or asked for: a scanned
    password, the stored name and password, and the answers of the user. */
module LoginUser {
  import opened Text
  import opened Script
  import opened LoginMachine
  import LoginLimits

  /** The script is about to run the entry at `scriptindex`. */
  ghost predicate AtEntry(cfg: Config, st: State, c: Command) {
    && ValidConfig(cfg) && Valid(st) && st.live && st.phase == Scripting
    && !st.semaphore && !st.pausing && !st.expecting && !st.scan.on
    && st.scriptindex < |cfg.comlist| && cfg.comlist[st.scriptindex] == c
  }

  lemma TickRuns(cfg: Config, st: State, c: Command)
    requires AtEntry(cfg, st, c) && !Waits(cfg, st)
    ensures Step(cfg, st, Tick) == Simple(cfg, st)
  {
    assert TimerEvent(cfg, st) == RunCommand(cfg, st);
  }

  // ----- scanning

  /** `t` is `s` without the white space around it. */
  ghost predicate Trimmed(s: string, t: string) {
    exists i: nat, j: nat :: Within(s, t, i, j)
  }

  ghost predicate Within(s: string, t: string, i: nat, j: nat) {
    && i <= j <= |s| && t == s[i..j] && AllSpace(s[..i]) && AllSpace(s[j..])
    && (t != "" ==> !IsSpace(t[0]) && !IsSpace(t[|t| - 1]))
  }

  predicate AllSpace(s: string) {
    forall i | 0 <= i < |s| :: IsSpace(s[i])
  }

  lemma {:induction false} StripTrims(s: string)
    ensures Trimmed(s, StripWhiteSpace(s))
  {
    var t := StripWhiteSpace(s);
    if s == "" {
      assert Within(s, t, 0, 0);
    } else if IsSpace(s[0]) {
      StripTrims(s[1..]);
      var i: nat, j: nat :| Within(s[1..], t, i, j);
      TrimmedBehind(s, i, j);
      assert Within(s, t, i + 1, j + 1);
    } else if IsSpace(s[|s| - 1]) {
      StripTrims(s[..|s| - 1]);
      var i: nat, j: nat :| Within(s[..|s| - 1], t, i, j);
      TrimmedBefore(s, i, j);
      assert Within(s, t, i, j);
    } else {
      assert Within(s, t, 0, |s|);
    }
  }

  lemma TrimmedBehind(s: string, i: nat, j: nat)
    requires s != "" && IsSpace(s[0]) && i <= j < |s|
    requires AllSpace(s[1..][..i]) && AllSpace(s[1..][j..])
    ensures s[1..][i..j] == s[i + 1..j + 1] && AllSpace(s[..i + 1]) && AllSpace(s[j + 1..])
  {
    assert s[1..][j..] == s[j + 1..];
    var front := s[..i + 1];
    forall k | 0 <= k < |front| ensures IsSpace(front[k]) {
      assert k > 0 ==> front[k] == s[1..][..i][k - 1];
    }
  }

  lemma TrimmedBefore(s: string, i: nat, j: nat)
    requires s != "" && IsSpace(s[|s| - 1]) && i <= j < |s|
    requires AllSpace(s[..|s| - 1][..i]) && AllSpace(s[..|s| - 1][j..])
    ensures s[..|s| - 1][i..j] == s[i..j] && AllSpace(s[..i]) && AllSpace(s[j..])
  {
    assert s[..|s| - 1][..i] == s[..i];
    var end := s[j..];
    forall k | 0 <= k < |end| ensures IsSpace(end[k]) {
      assert k < |s| - 1 - j ==> end[k] == s[..|s| - 1][j..][k];
    }
  }

  ghost function Chars(s: string): seq<Event> {
    seq(|s|, i requires 0 <= i < |s| => Char(s[i]))
  }

  predicate OneLine(s: string) {
    forall i | 0 <= i < |s| :: s[i] != '\n' && s[i] != '\r'
  }

  ghost predicate Scanning(cfg: Config, st: State) {
    ValidConfig(cfg) && Valid(st) && st.live && !st.semaphore && !st.expecting && st.scan.on
  }

  function Scanned(st: State, s: string): State {
    st.(readbuffer := st.readbuffer + s, scan := st.scan.(buffer := st.scan.buffer + s))
  }

  /** Within a line the characters are collected. */
  lemma {:induction false} LineCollected(cfg: Config, st: State, s: string, rest: seq<Event>)
    requires Scanning(cfg, st) && OneLine(s)
    ensures Run(cfg, st, Chars(s) + rest) == Run(cfg, Scanned(st, s), rest)
    decreases |s|
  {
    if s == "" {
      assert Chars(s) + rest == rest;
      assert st.readbuffer + "" == st.readbuffer && st.scan.buffer + "" == st.scan.buffer;
    } else {
      var next := Scanned(st, [s[0]]);
      assert Chars(s) + rest == [Char(s[0])] + (Chars(s[1..]) + rest);
      LoginLimits.RunFirst(cfg, st, Char(s[0]), Chars(s[1..]) + rest);
      CharCollected(cfg, st, s[0]);
      LineCollected(cfg, next, s[1..], rest);
      assert st.readbuffer + [s[0]] + s[1..] == st.readbuffer + s;
      assert st.scan.buffer + [s[0]] + s[1..] == st.scan.buffer + s;
    }
  }

  lemma CharCollected(cfg: Config, st: State, c: char)
    requires Scanning(cfg, st) && c != '\n' && c != '\r'
    ensures Step(cfg, st, Char(c)) == Scanned(st, [c])
  {
  }

  /** At its end what follows the text scanned for is kept. */
  lemma LineEnds(cfg: Config, st: State, end: char)
    requires Scanning(cfg, st) && (end == '\n' || end == '\r')
    ensures var r, line := Step(cfg, st, Char(end)), st.scan.buffer + [end];
            && r.readbuffer == st.readbuffer + [end]
            && r == st.(readbuffer := r.readbuffer, scan := r.scan)
            && (Contains(line, st.scan.str) ==>
                  r.scan == st.scan.(on := false, buffer := line,
                                     variable := StripWhiteSpace(After(line, st.scan.str))))
  {
  }

  /** The state behind a Scan that has got its line. */
  ghost function Got(cfg: Config, st: State, line: string, end: char): State
    requires |cfg.comlist| == |cfg.arglist| && st.scriptindex < |cfg.arglist|
    requires Contains(line + [end], cfg.arglist[st.scriptindex])
  {
    var text := cfg.arglist[st.scriptindex];
    st.(scriptindex := st.scriptindex + 1, readbuffer := st.readbuffer + line + [end],
        scan := Scanner(false, text, line + [end], StripWhiteSpace(After(line + [end], text))))
  }

  lemma ScanGets(cfg: Config, st: State, line: string, end: char, rest: seq<Event>)
    requires AtEntry(cfg, st, Scan) && OneLine(line) && (end == '\n' || end == '\r')
    requires Contains(line + [end], cfg.arglist[st.scriptindex])
    ensures Run(cfg, st, [Tick] + (Chars(line) + ([Char(end)] + rest))) == Run(cfg, Got(cfg, st, line, end), rest)
  {
    var more := [Char(end)] + rest;
    var scanning := ScanBegins(cfg, st, Chars(line) + more);
    LineCollected(cfg, scanning, line, more);
    LoginLimits.RunFirst(cfg, Scanned(scanning, line), Char(end), rest);
    LineGot(cfg, st, scanning, line, end);
  }

  lemma ScanBegins(cfg: Config, st: State, events: seq<Event>) returns (r: State)
    requires AtEntry(cfg, st, Scan)
    ensures r == st.(scriptindex := st.scriptindex + 1,
                     scan := Scanner(true, cfg.arglist[st.scriptindex], "", st.scan.variable))
    ensures Scanning(cfg, r) && Run(cfg, st, [Tick] + events) == Run(cfg, r, events)
  {
    r := st.(scriptindex := st.scriptindex + 1,
             scan := Scanner(true, cfg.arglist[st.scriptindex], "", st.scan.variable));
    LoginLimits.RunFirst(cfg, st, Tick, events);
    TickRuns(cfg, st, Scan);
  }

  lemma LineGot(cfg: Config, st: State, scanning: State, line: string, end: char)
    requires AtEntry(cfg, st, Scan) && (end == '\n' || end == '\r')
    requires Contains(line + [end], cfg.arglist[st.scriptindex])
    requires scanning == st.(scriptindex := st.scriptindex + 1,
                             scan := Scanner(true, cfg.arglist[st.scriptindex], "", st.scan.variable))
    ensures Step(cfg, Scanned(scanning, line), Char(end)) == Got(cfg, st, line, end)
  {
    assert "" + line == line;
    LineEnds(cfg, Scanned(scanning, line), end);
  }

  /** A password that is scanned and saved is what the script then sends: the rest
      of the line behind the text scanned for, without white space around it. */
  lemma ScannedPasswordSent(cfg: Config, st: State, line: string, end: char)
    requires AtEntry(cfg, st, Scan) && st.scriptindex + 2 < |cfg.comlist|
    requires OneLine(line) && (end == '\n' || end == '\r')
    requires cfg.comlist[st.scriptindex + 1] == Save && Lower(cfg.arglist[st.scriptindex + 1]) == "password"
    requires cfg.comlist[st.scriptindex + 2] == Password
    requires Contains(line + [end], cfg.arglist[st.scriptindex])
    ensures var rest := After(line + [end], cfg.arglist[st.scriptindex]);
            var r := Run(cfg, st, [Tick] + (Chars(line) + ([Char(end)] + ([Tick] + [Tick]))));
            !AllSpace(rest) ==> exists t :: Trimmed(rest, t) && r.sent == st.sent + [t]
  {
    var rest := After(line + [end], cfg.arglist[st.scriptindex]);
    var t := StripWhiteSpace(rest);
    ScanGets(cfg, st, line, end, [Tick] + [Tick]);
    StripTrims(rest);
    SavedSent(cfg, Got(cfg, st, line, end), t);
    if t == "" {
      TrimmedAway(rest);
    }
  }

  lemma TrimmedAway(s: string)
    requires Trimmed(s, "")
    ensures AllSpace(s)
  {
    var i: nat, j: nat :| Within(s, "", i, j);
    forall k | 0 <= k < |s| ensures IsSpace(s[k]) {
      assert if k < i then s[..i][k] == s[k] else s[j..][k - j] == s[k];
    }
  }

  lemma SavedSent(cfg: Config, st: State, password: string)
    requires AtEntry(cfg, st, Save) && Lower(cfg.arglist[st.scriptindex]) == "password"
    requires st.scriptindex + 1 < |cfg.comlist| && cfg.comlist[st.scriptindex + 1] == Password
    requires st.scan.variable == password
    ensures password != "" ==> Run(cfg, st, [Tick] + [Tick]).sent == st.sent + [password]
  {
    var saved := st.(scriptindex := st.scriptindex + 1,
                     user := st.user.(password := password, firstrunPW := true));
    LoginLimits.RunFirst(cfg, st, Tick, [Tick]);
    TickRuns(cfg, st, Save);
    RunLast(cfg, saved, Tick);
    TickRuns(cfg, saved, Password);
  }

  lemma RunLast(cfg: Config, st: State, e: Event)
    requires ValidConfig(cfg) && Valid(st)
    ensures Run(cfg, st, [e]) == Step(cfg, st, e)
  {
    assert [e][1..] == [];
  }

  // ----- what is stored, and what the user enters

  /** What the entry sends without asking, or nothing. */
  function Stored(cfg: Config, st: State, c: Command): string {
    if c == ID && st.user.firstrunID then cfg.username
    else if c == Password && st.user.firstrunPW then st.user.password
    else ""
  }

  predicate Asks(c: Command) {
    c == ID || c == Password || c == Prompt || c == PWPrompt
  }

  ghost function Ticks(n: nat): seq<Event> {
    seq(n, _ => Tick)
  }

  lemma {:induction false} TicksWait(cfg: Config, st: State, n: nat, rest: seq<Event>)
    requires ValidConfig(cfg) && Valid(st) && Step(cfg, st, Tick) == st
    ensures Run(cfg, st, Ticks(n) + rest) == Run(cfg, st, rest)
  {
    if n == 0 {
      assert Ticks(0) + rest == rest;
    } else {
      assert Ticks(n) + rest == [Tick] + (Ticks(n - 1) + rest);
      LoginLimits.RunFirst(cfg, st, Tick, Ticks(n - 1) + rest);
      TicksWait(cfg, st, n - 1, rest);
    }
  }

  /** With nothing to send the script asks, waits for the answer however long it
      takes, sends it, and goes on. */
  lemma AnswerSent(cfg: Config, st: State, c: Command, n: nat, text: string, rest: seq<Event>)
    requires Asks(c) && AtEntry(cfg, st, c) && Stored(cfg, st, c) == "" && st.user.prompt == Idle
    ensures Run(cfg, st, [Tick] + (Ticks(n) + ([UserEnters(text)] + ([Tick] + rest))))
         == Run(cfg, st.(sent := st.sent + [text], scriptindex := st.scriptindex + 1), rest)
  {
    var asking := st.(user := st.user.(prompt := Asking));
    var entered := st.(user := st.user.(prompt := Entered(text)));
    LoginLimits.RunFirst(cfg, st, Tick, Ticks(n) + ([UserEnters(text)] + ([Tick] + rest)));
    TickRuns(cfg, st, c);
    TickRuns(cfg, asking, c);
    TicksWait(cfg, asking, n, [UserEnters(text)] + ([Tick] + rest));
    LoginLimits.RunFirst(cfg, asking, UserEnters(text), [Tick] + rest);
    assert Step(cfg, asking, UserEnters(text)) == entered;
    LoginLimits.RunFirst(cfg, entered, Tick, rest);
    TickRuns(cfg, entered, c);
    assert Step(cfg, entered, Tick) == st.(sent := st.sent + [text], scriptindex := st.scriptindex + 1);
  }

  /** A stored name or password is sent at once, but only the first time; then the
      user is asked. */
  lemma StoredOnce(cfg: Config, st: State, c: Command, n: nat, text: string)
    requires AtEntry(cfg, st, c) && Stored(cfg, st, c) != "" && st.user.prompt == Idle
    requires st.scriptindex + 1 < |cfg.comlist| && cfg.comlist[st.scriptindex + 1] == c
    ensures var r := Run(cfg, st, [Tick] + ([Tick] + (Ticks(n) + ([UserEnters(text)] + ([Tick] + [])))));
            r.sent == st.sent + [Stored(cfg, st, c), text] && r.scriptindex == st.scriptindex + 2
  {
    var again := Step(cfg, st, Tick);
    TickRuns(cfg, st, c);
    LoginLimits.RunFirst(cfg, st, Tick, [Tick] + (Ticks(n) + ([UserEnters(text)] + ([Tick] + []))));
    assert again.sent == st.sent + [Stored(cfg, st, c)] && AtEntry(cfg, again, c) && Stored(cfg, again, c) == "";
    AnswerSent(cfg, again, c, n, text, []);
  }

  // ----- sessions

  /** Every session sends the stored name or password afresh. */
  lemma StoredAgain(cfg: Config, st: State, c: Command)
    requires ValidConfig(cfg) && Valid(st) && cfg.comlist != [] && cfg.comlist[0] == c
    requires (c == ID && cfg.username != "") || (c == Password && st.user.password != "")
    ensures Run(cfg, Init(st, true), [DialDone] + [Tick]).sent
         == st.sent + [if c == ID then cfg.username else st.user.password]
  {
    var s := Init(st, true);
    LoginLimits.RunFirst(cfg, s, DialDone, [Tick]);
    RunLast(cfg, Step(cfg, s, DialDone), Tick);
    TickRuns(cfg, Step(cfg, s, DialDone), c);
  }

  /** An answer the user gave before cancelling is not sent in the next session;
      the user is asked again. */
  lemma AnswerForgotten(cfg: Config, st: State, c: Command)
    requires ValidConfig(cfg) && Valid(st) && st.live && cfg.comlist != [] && cfg.comlist[0] == c && Asks(c)
    requires Stored(cfg, Init(st, true), c) == ""
    ensures var r := Run(cfg, Init(Step(cfg, st, Cancel), true), [DialDone] + [Tick]);
            r.sent == st.sent && r.user.prompt == Asking
  {
    var s := Init(Step(cfg, st, Cancel), true);
    LoginLimits.RunFirst(cfg, s, DialDone, [Tick]);
    RunLast(cfg, Step(cfg, s, DialDone), Tick);
    TickRuns(cfg, Step(cfg, s, DialDone), c);
  }
}
