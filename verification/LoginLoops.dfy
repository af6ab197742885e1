/** What any checked script, loops included, does to the stream of received
    characters: the strings it has matched lie in the stream one behind the
    other, and they lead it through the script along its static nesting. */
module LoginLoops {
  import opened Text
  import opened Script
  import opened LoginMachine
  import opened LoginSafety
  import LoginStream
  import Sequences

  /** What came in: the string an entry waits for, the ring that Answer waits for
      first, or the string of the loop that a LoopEnd closes. */
  datatype Kind = Went | Rang | Back

  /** `text` was found at `at` in the stream; the script goes on from `cut`. */
  datatype Match = Match(entry: nat, kind: Kind, text: string, at: nat, cut: nat)

  /** Where some matches lead: on from the entry `start`, or to the answer of an
      Answer that has rung, from `cut` in the stream, with `sent` sent so far. */
  datatype Mark = Mark(start: nat, rung: bool, cut: nat, sent: seq<string>)

  // ----- the way through a script

  ghost predicate WaitsAt(cfg: Config, i: nat) {
    i < |cfg.comlist| && cfg.comlist[i] in {Expect, Hangup, Answer, LoopStart, LoopEnd}
  }

  /** What the entry waits for; Answer first waits for the ring. */
  ghost function AwaitedAt(cfg: Config, i: nat, rung: bool): string
    requires |cfg.comlist| == |cfg.arglist| && i < |cfg.comlist|
  {
    match cfg.comlist[i]
    case Hangup => cfg.hangupResp
    case Answer => if rung then cfg.answerResp else cfg.ringResp
    case _ => cfg.arglist[i]
  }

  /** The LoopStart of the innermost loop open at `j`. */
  ghost function LoopEntry(cs: seq<Command>, j: nat): (m: nat)
    ensures j < |cs| && Open(cs, j) != [] ==> m < j
  {
    if j < |cs| && Open(cs, j) != [] then Open(cs, j)[|Open(cs, j)| - 1] else 0
  }

  ghost function LoopText(cfg: Config, j: nat): string
    requires |cfg.comlist| == |cfg.arglist| && j < |cfg.comlist|
  {
    cfg.arglist[LoopEntry(cfg.comlist, j)]
  }

  /** The entry a match leads to. */
  ghost function Resume(cfg: Config, m: Match): nat {
    match m.kind
    case Went => m.entry + 1
    case Rang => m.entry
    case Back => LoopEntry(cfg.comlist, m.entry) + 1
  }

  /** Behind the mark nothing waits before the entry `j`. */
  ghost predicate Clear(cfg: Config, k: Mark, j: nat) {
    !k.rung && k.start <= j && forall i: nat | k.start <= i < j :: !WaitsAt(cfg, i)
  }

  /** Behind the mark it is the entry `j` that waits. */
  ghost predicate Reaches(cfg: Config, k: Mark, j: nat) {
    WaitsAt(cfg, j) && if k.rung then j == k.start else Clear(cfg, k, j)
  }

  ghost predicate Follow(cfg: Config, k: Mark, m: Match)
    requires |cfg.comlist| == |cfg.arglist|
  {
    && Reaches(cfg, k, m.entry)
    && match m.kind
       case Went => m.text == AwaitedAt(cfg, m.entry, true) && (cfg.comlist[m.entry] == Answer ==> k.rung)
       case Rang => m.text == cfg.ringResp && cfg.comlist[m.entry] == Answer && !k.rung
       case Back => m.text == LoopText(cfg, m.entry) && cfg.comlist[m.entry] == LoopEnd
  }

  /** The text is the leftmost in what came in since the last match.  A Back
      drops all of that, and the awaited string was not in it. */
  ghost predicate Found(cfg: Config, k: Mark, m: Match, s: string)
    requires |cfg.comlist| == |cfg.arglist| && m.entry < |cfg.comlist|
  {
    && k.cut <= m.cut <= |s|
    && Contains(s[k.cut..m.cut], m.text)
    && m.at == k.cut + Find(s[k.cut..m.cut], m.text)
    && if m.kind == Back then !Contains(s[k.cut..m.cut], cfg.arglist[m.entry]) else m.cut == m.at + |m.text|
  }

  // ----- what is sent on the way

  ghost function LineOf(cfg: Config, i: nat): seq<string>
    requires |cfg.comlist| == |cfg.arglist| && i < |cfg.comlist|
  {
    match cfg.comlist[i]
    case Send => [cfg.arglist[i]]
    case SendNoEcho => [cfg.arglist[i]]
    case Hangup => [cfg.hangupStr]
    case _ => []
  }

  /** The lines of the entries from `lo` up to `hi`. */
  ghost function Lines(cfg: Config, lo: nat, hi: nat): seq<string>
    requires |cfg.comlist| == |cfg.arglist|
  {
    if hi <= lo || hi > |cfg.comlist| then [] else Lines(cfg, lo, hi - 1) + LineOf(cfg, hi - 1)
  }

  /** No entry sends what the user is asked for. */
  ghost predicate NoUser(cfg: Config) {
    forall c <- cfg.comlist :: c !in {ID, Password, Prompt, PWPrompt}
  }

  /** On the way to a match; a ring is answered. */
  ghost function SentTo(cfg: Config, k: Mark, m: Match): seq<string>
    requires |cfg.comlist| == |cfg.arglist|
  {
    if k.rung then [cfg.answerStr] else Lines(cfg, k.start, m.entry + 1)
  }

  ghost function Next(cfg: Config, k: Mark, m: Match): Mark
    requires |cfg.comlist| == |cfg.arglist|
  {
    Mark(Resume(cfg, m), m.kind == Rang, m.cut, k.sent + SentTo(cfg, k, m))
  }

  datatype Trail = Stop | Hop(m: Match, rest: Trail)

  /** From the mark on, the trail is a way through the script along the stream
      `s`. */
  ghost predicate Leads(cfg: Config, s: string, k: Mark, w: Trail)
    requires |cfg.comlist| == |cfg.arglist|
    decreases w
  {
    match w
    case Stop => true
    case Hop(m, rest) => Follow(cfg, k, m) && Found(cfg, k, m, s) && Leads(cfg, s, Next(cfg, k, m), rest)
  }

  /** Where it leads. */
  ghost function End(cfg: Config, k: Mark, w: Trail): Mark
    requires |cfg.comlist| == |cfg.arglist|
    decreases w
  {
    match w
    case Stop => k
    case Hop(m, rest) => End(cfg, Next(cfg, k, m), rest)
  }

  ghost function Append(a: Trail, b: Trail): Trail {
    match a
    case Stop => b
    case Hop(m, rest) => Hop(m, Append(rest, b))
  }

  lemma {:induction false} LeadsOn(cfg: Config, s: string, k: Mark, a: Trail, b: Trail)
    requires |cfg.comlist| == |cfg.arglist| && Leads(cfg, s, k, a) && Leads(cfg, s, End(cfg, k, a), b)
    ensures Leads(cfg, s, k, Append(a, b)) && End(cfg, k, Append(a, b)) == End(cfg, End(cfg, k, a), b)
    decreases a
  {
    if a.Hop? {
      LeadsOn(cfg, s, Next(cfg, k, a.m), a.rest, b);
    }
  }

  // ----- where the interpreter stands

  /** It waits. */
  ghost predicate Waiting(cfg: Config, k: Mark, st: State)
    requires |cfg.comlist| == |cfg.arglist|
  {
    var j := if st.phase == Answering then st.scriptindex else st.scriptindex - 1;
    && j >= 0 && Reaches(cfg, k, j)
    && st.expectstr == AwaitedAt(cfg, j, st.phase == Scripting)
    && (cfg.comlist[j] == Answer ==> (k.rung <==> st.phase == Scripting))
    && (st.loops.end <==> cfg.comlist[j] == LoopEnd)
    && st.phase in {Scripting, Answering} && (st.phase == Answering ==> cfg.comlist[j] == Answer)
  }

  /** It is on its way to the next entry that waits, or to the end. */
  ghost predicate Between(cfg: Config, k: Mark, st: State)
    requires |cfg.comlist| == |cfg.arglist|
  {
    if st.phase == Answering
    then k.rung && k.start == st.scriptindex < |cfg.comlist| && cfg.comlist[st.scriptindex] == Answer
    else
      && Clear(cfg, k, st.scriptindex) && st.phase in {Scripting, Finished}
      && (st.phase == Finished ==> st.scriptindex == |cfg.comlist|)
  }

  ghost predicate Stands(cfg: Config, k: Mark, st: State)
    requires |cfg.comlist| == |cfg.arglist|
  {
    && Valid(st) && st.scriptindex <= |cfg.comlist|
    && if st.expecting then Waiting(cfg, k, st) else Between(cfg, k, st) && !st.loops.end
  }

  ghost predicate Listening(st: State) {
    st.live && !st.semaphore
  }

  /** What came in since the last match is in the buffer. */
  ghost predicate Buffered(s: string, k: Mark, st: State) {
    k.cut <= |s| && (Listening(st) ==> st.readbuffer == s[k.cut..])
  }

  /** `sent` had been sent before the script began. */
  ghost predicate SentRight(cfg: Config, sent: seq<string>, k: Mark, st: State)
    requires |cfg.comlist| == |cfg.arglist|
  {
    var since := if !k.rung then Lines(cfg, k.start, st.scriptindex) else if st.expecting then [cfg.answerStr] else [];
    NoUser(cfg) ==> st.sent == sent + k.sent + since
  }

  ghost predicate Behind(cfg: Config, sent: seq<string>, s: string, k: Mark, st: State)
    requires |cfg.comlist| == |cfg.arglist|
  {
    Stands(cfg, k, st) && Buffered(s, k, st) && SentRight(cfg, sent, k, st)
  }

  /** Nothing that is waited for has come in already. */
  ghost predicate Quiet(st: State) {
    st.expecting && Listening(st) ==> !Contains(st.readbuffer, st.expectstr)
  }

  /** With `s` received the interpreter stands behind the mark, and what it waits
      for has not come in already; or there was an early match. */
  ghost predicate OnWay(cfg: Config, sent: seq<string>, s: string, k: Mark, st: State)
    requires |cfg.comlist| == |cfg.arglist|
  {
    Early(st) || (Behind(cfg, sent, s, k, st) && Quiet(st))
  }

  // ----- the awaited string has come in

  /** Only what lies before the end of the leftmost occurrence matters. */
  lemma CutAtMatch(s: string, from: nat, t: string)
    requires from <= |s| && Contains(s[from..], t)
    ensures var cut := from + Find(s[from..], t) + |t|;
            && cut <= |s| && Contains(s[from..cut], t) && Find(s[from..cut], t) == Find(s[from..], t)
            && After(s[from..], t) == s[cut..]
  {
    var cut := from + Find(s[from..], t) + |t|;
    FindLeftmost(s[from..], t);
    assert s[from..cut][Find(s[from..], t)..] == t;
    ContainsAt(s[from..cut], t, Find(s[from..], t));
    assert s[from..] == s[from..cut] + s[cut..];
    AfterExtend(s[from..cut], t, s[cut..]);
  }

  lemma Taken(cfg: Config, k: Mark, s: string, st: State) returns (m: Match)
    requires ValidConfig(cfg) && Stands(cfg, k, st) && Buffered(s, k, st) && Listening(st) && st.expecting
    requires Contains(st.readbuffer, st.expectstr)
    ensures m.entry == (if st.phase == Answering then st.scriptindex else st.scriptindex - 1)
    ensures m.kind == (if st.phase == Answering then Rang else Went)
    ensures Follow(cfg, k, m) && Found(cfg, k, m, s)
    ensures m.cut <= |s| && After(st.readbuffer, st.expectstr) == s[m.cut..]
  {
    var at := k.cut + Find(st.readbuffer, st.expectstr);
    m := Match(if st.phase == Answering then st.scriptindex else st.scriptindex - 1,
               if st.phase == Answering then Rang else Went, st.expectstr, at, at + |st.expectstr|);
    CutAtMatch(s, k.cut, st.expectstr);
  }

  lemma TakenStands(cfg: Config, k: Mark, st: State, m: Match)
    requires ValidConfig(cfg) && Stands(cfg, k, st) && st.expecting && Contains(st.readbuffer, st.expectstr)
    requires m.entry == (if st.phase == Answering then st.scriptindex else st.scriptindex - 1)
    requires m.kind == (if st.phase == Answering then Rang else Went)
    ensures Stands(cfg, Next(cfg, k, m), TakeExpected(st))
  {
  }

  lemma TakenSent(cfg: Config, sent: seq<string>, k: Mark, st: State, m: Match)
    requires ValidConfig(cfg) && Stands(cfg, k, st) && st.expecting && Contains(st.readbuffer, st.expectstr)
    requires m.entry == (if st.phase == Answering then st.scriptindex else st.scriptindex - 1)
    requires m.kind == (if st.phase == Answering then Rang else Went)
    requires SentRight(cfg, sent, k, st)
    ensures SentRight(cfg, sent, Next(cfg, k, m), TakeExpected(st))
  {
    if st.phase == Answering {
      NextLine(cfg, k.start, m.entry);
      Sequences.EmptyLast(Lines(cfg, k.start, m.entry));
    }
    assert Lines(cfg, m.entry + 1, m.entry + 1) == [];
    SentAssoc(sent, k.sent, SentTo(cfg, k, m));
  }

  lemma SentAssoc(a: seq<string>, b: seq<string>, c: seq<string>)
    ensures a + b + c == a + (b + c) && a + (b + c) + [] == a + (b + c)
  {
  }

  lemma NextLine(cfg: Config, lo: nat, i: nat)
    requires |cfg.comlist| == |cfg.arglist| && lo <= i < |cfg.comlist|
    ensures Lines(cfg, lo, i + 1) == Lines(cfg, lo, i) + LineOf(cfg, i)
  {
  }

  /** The awaited string has come in. */
  lemma Takes(cfg: Config, sent: seq<string>, s: string, k: Mark, st: State) returns (m: Match, t: State)
    requires ValidConfig(cfg) && Behind(cfg, sent, s, k, st) && Listening(st)
    requires st.expecting && Contains(st.readbuffer, st.expectstr)
    ensures t == TakeExpected(st) && !t.expecting && Listening(t)
    ensures Follow(cfg, k, m) && Found(cfg, k, m, s) && Behind(cfg, sent, s, Next(cfg, k, m), t)
    ensures st.loops.end ==> m.entry == st.scriptindex - 1 && m.kind == Went
  {
    t := TakeExpected(st);
    m := Taken(cfg, k, s, st);
    TakenStands(cfg, k, st, m);
    TakenSent(cfg, sent, k, st, m);
  }

  // ----- the loop string has come in

  /** The loop arrays hold the innermost loop. */
  ghost predicate Pending(cfg: Config, st: State)
    requires |cfg.comlist| == |cfg.arglist|
  {
    && Valid(st) && InRange(st.loops.nest) && 0 < st.scriptindex <= |cfg.comlist|
    && st.loops.str[st.loops.nest] == LoopText(cfg, st.scriptindex - 1)
    && st.loops.start[st.loops.nest] == LoopEntry(cfg.comlist, st.scriptindex - 1) + 1 <= |cfg.comlist|
  }

  lemma InvPending(cfg: Config, base: nat, st: State)
    requires GoodScript(cfg, base) && Inv(cfg, base, st) && st.loops.end
    ensures Pending(cfg, st)
  {
    var j := st.scriptindex - 1;
    OpenStep(cfg.comlist, j);
    FitsAt(cfg.comlist, base, j);
    PendingSlot(cfg, base, st, LoopEntry(cfg.comlist, j));
  }

  lemma Returned(cfg: Config, k: Mark, s: string, st: State) returns (m: Match)
    requires ValidConfig(cfg) && Stands(cfg, k, st) && Buffered(s, k, st) && Listening(st) && st.expecting
    requires st.loops.end && !Contains(st.readbuffer, st.expectstr)
    requires st.scriptindex > 0 && Contains(st.readbuffer, LoopText(cfg, st.scriptindex - 1))
    ensures m.entry == st.scriptindex - 1 && m.kind == Back && m.cut == |s|
    ensures Follow(cfg, k, m) && Found(cfg, k, m, s)
  {
    var j := st.scriptindex - 1;
    m := Match(j, Back, LoopText(cfg, j), k.cut + Find(st.readbuffer, LoopText(cfg, j)), |s|);
    assert s[k.cut..] == s[k.cut..|s|];
  }

  lemma ReturnedStands(cfg: Config, k: Mark, st: State, m: Match, t: State)
    requires ValidConfig(cfg) && Stands(cfg, k, st) && st.expecting && st.loops.end
    requires m.entry == st.scriptindex - 1 && m.kind == Back
    requires Valid(t) && !t.expecting && !t.loops.end && t.phase == st.phase
    requires t.scriptindex == Resume(cfg, m) <= |cfg.comlist|
    ensures Stands(cfg, Next(cfg, k, m), t)
  {
  }

  lemma ReturnedSent(cfg: Config, sent: seq<string>, k: Mark, st: State, m: Match, t: State)
    requires ValidConfig(cfg) && Stands(cfg, k, st) && st.expecting && st.loops.end
    requires m.entry == st.scriptindex - 1 && m.kind == Back && SentRight(cfg, sent, k, st)
    requires t.sent == st.sent && t.scriptindex == Resume(cfg, m)
    ensures SentRight(cfg, sent, Next(cfg, k, m), t)
  {
    assert Lines(cfg, t.scriptindex, t.scriptindex) == [];
    SentAssoc(sent, k.sent, SentTo(cfg, k, m));
  }

  lemma Returns(cfg: Config, sent: seq<string>, s: string, k: Mark, st: State) returns (m: Match, t: State)
    requires ValidConfig(cfg) && Pending(cfg, st) && Listening(st)
    requires Behind(cfg, sent, s, k, st) && st.expecting && st.loops.end
    requires !Contains(st.readbuffer, st.expectstr) && Contains(st.readbuffer, LoopText(cfg, st.scriptindex - 1))
    ensures t == LoopBack(st) && !t.expecting && Listening(t)
    ensures Follow(cfg, k, m) && Found(cfg, k, m, s) && Behind(cfg, sent, s, Next(cfg, k, m), t)
    ensures m.entry == st.scriptindex - 1 && m.kind == Back
  {
    t := LoopBack(st);
    m := Returned(cfg, k, s, st);
    ReturnedStands(cfg, k, st, m, t);
    ReturnedSent(cfg, sent, k, st, m, t);
    assert s[|s|..] == "";
  }

  // ----- commands

  /** The entry at `scriptindex` now waits. */
  lemma StartsWaiting(cfg: Config, sent: seq<string>, s: string, k: Mark, st: State, t: State)
    requires ValidConfig(cfg) && Behind(cfg, sent, s, k, st) && Listening(st)
    requires st.phase == Scripting && !st.expecting && WaitsAt(cfg, st.scriptindex)
    requires t.expecting && Valid(t) && t.readbuffer == st.readbuffer
    requires t.live == st.live && t.semaphore == st.semaphore
    requires t.expectstr == AwaitedAt(cfg, st.scriptindex, false)
    requires t.sent == st.sent + LineOf(cfg, st.scriptindex)
    requires t.loops.end <==> cfg.comlist[st.scriptindex] == LoopEnd
    requires if cfg.comlist[st.scriptindex] == Answer then t.phase == Answering && t.scriptindex == st.scriptindex
             else t.phase == Scripting && t.scriptindex == st.scriptindex + 1
    ensures Behind(cfg, sent, s, k, t)
  {
    var i := st.scriptindex;
    assert Reaches(cfg, k, i);
    NextLine(cfg, k.start, i);
    SentAssoc(sent + k.sent, Lines(cfg, k.start, i), LineOf(cfg, i));
  }

  /** A command that waits, and whose string has not come in yet. */
  lemma WaitFollows(cfg: Config, sent: seq<string>, s: string, k: Mark, st: State) returns (t: State)
    requires ValidConfig(cfg) && Behind(cfg, sent, s, k, st) && Listening(st)
    requires st.phase == Scripting && !st.expecting && st.scriptindex < |cfg.comlist|
    requires Waits(cfg, st) && cfg.comlist[st.scriptindex] != Expect && st.loops.nest >= 0
    requires !Immediate(Prepare(cfg, st), Awaited(cfg, st))
    ensures t == RunCommand(cfg, st) && (Early(t) || (Behind(cfg, sent, s, k, t) && Quiet(t)))
  {
    t := RunCommand(cfg, st);
    NotImmediate(cfg, Prepare(cfg, st), Awaited(cfg, st));
    Sequences.EmptyLast(st.sent);
    if !Early(t) {
      StartsWaiting(cfg, sent, s, k, st, t);
    }
  }

  lemma ExpectStarts(cfg: Config, sent: seq<string>, s: string, k: Mark, st: State) returns (t: State)
    requires ValidConfig(cfg) && Behind(cfg, sent, s, k, st) && Listening(st)
    requires st.phase == Scripting && !st.expecting && st.scriptindex < |cfg.comlist|
    requires cfg.comlist[st.scriptindex] == Expect
    ensures t == Prepare(cfg, st).(expecting := true, expectstr := Awaited(cfg, st))
    ensures Behind(cfg, sent, s, k, t) && Listening(t)
  {
    t := Prepare(cfg, st).(expecting := true, expectstr := Awaited(cfg, st));
    Sequences.EmptyLast(st.sent);
    StartsWaiting(cfg, sent, s, k, st, t);
  }

  /** The ring has come in and is answered. */
  lemma AnswerFollows(cfg: Config, sent: seq<string>, s: string, k: Mark, st: State) returns (t: State)
    requires ValidConfig(cfg) && Behind(cfg, sent, s, k, st) && Listening(st)
    requires st.phase == Answering && !st.expecting && !st.pausing && !Immediate(st, cfg.answerResp)
    ensures t == TimerEvent(cfg, st) && (Early(t) || (Behind(cfg, sent, s, k, t) && Quiet(t)))
  {
    t := TimerEvent(cfg, st);
    NotImmediate(cfg, WriteLine(st, cfg.answerStr), cfg.answerResp);
    Sequences.EmptyLast(sent + k.sent);
    assert Reaches(cfg, k, st.scriptindex);
  }

  lemma SimpleFollows(cfg: Config, base: nat, sent: seq<string>, s: string, k: Mark, st: State)
    requires GoodScript(cfg, base) && Inv(cfg, base, st) && Behind(cfg, sent, s, k, st)
    requires st.phase == Scripting && !st.expecting && st.scriptindex < |cfg.comlist| && !Waits(cfg, st)
    ensures Behind(cfg, sent, s, k, Simple(cfg, st)) && Quiet(Simple(cfg, st))
  {
    NoLoopCommand(cfg, base, st);
    assert cfg.comlist[st.scriptindex] in cfg.comlist;
    if NoUser(cfg) {
      SimpleSends(cfg, st);
    }
    PassiveFollows(cfg, sent, s, k, st, Simple(cfg, st));
  }

  lemma PassiveFollows(cfg: Config, sent: seq<string>, s: string, k: Mark, st: State, r: State)
    requires ValidConfig(cfg) && Behind(cfg, sent, s, k, st) && st.scriptindex < |cfg.comlist|
    requires st.phase == Scripting && !st.expecting && !WaitsAt(cfg, st.scriptindex) && Passive(st, r)
    requires NoUser(cfg) ==> r.sent == st.sent + LineOf(cfg, st.scriptindex)
                             && (r.scriptindex == st.scriptindex ==> LineOf(cfg, st.scriptindex) == [])
    ensures Behind(cfg, sent, s, k, r) && Quiet(r)
  {
    var i := st.scriptindex;
    assert Clear(cfg, k, r.scriptindex);
    NextLine(cfg, k.start, i);
    SentAssoc(sent + k.sent, Lines(cfg, k.start, i), LineOf(cfg, i));
    Sequences.EmptyLast(st.sent);
  }

  lemma SimpleSends(cfg: Config, st: State)
    requires |cfg.comlist| == |cfg.arglist| && st.scriptindex < |cfg.comlist|
    requires cfg.comlist[st.scriptindex] !in {Hangup, ID, Password, Prompt, PWPrompt}
    ensures Simple(cfg, st).sent == st.sent + LineOf(cfg, st.scriptindex)
    ensures Simple(cfg, st).scriptindex == st.scriptindex ==> LineOf(cfg, st.scriptindex) == []
  {
  }

  // ----- every run

  /** At a LoopEnd the script goes on if the awaited string has come in since the
      last match, jumps back if only the loop's string has, and waits if neither
      has. */
  ghost predicate Decides(cfg: Config, found: Sequences.Option<Match>, j: nat, since: string)
    requires |cfg.comlist| == |cfg.arglist| && j < |cfg.comlist|
  {
    if Contains(since, cfg.arglist[j]) then found.Some? && found.value.entry == j && found.value.kind == Went
    else if Contains(since, LoopText(cfg, j)) then found.Some? && found.value.entry == j && found.value.kind == Back
    else found.None?
  }

  /** The match the trail starts with. */
  ghost function First(w: Trail): Sequences.Option<Match> {
    match w
    case Stop => Sequences.None
    case Hop(m, _) => Sequences.Some(m)
  }

  /** What `checkBuffers` finds first. */
  lemma FirstMatch(cfg: Config, sent: seq<string>, s: string, k: Mark, st: State)
    returns (found: Sequences.Option<Match>, t: State)
    requires ValidConfig(cfg) && (st.loops.end ==> Pending(cfg, st)) && Listening(st) && st.expecting
    requires Behind(cfg, sent, s, k, st)
    ensures t == LoopBack(TakeExpected(st)) && Listening(t) && (t.expecting <==> found.None?)
    ensures found.None? ==> Behind(cfg, sent, s, k, t) && Quiet(t)
    ensures found.Some? ==>
              var m := found.value;
              Follow(cfg, k, m) && Found(cfg, k, m, s) && Behind(cfg, sent, s, Next(cfg, k, m), t)
    ensures st.loops.end ==> Decides(cfg, found, st.scriptindex - 1, st.readbuffer)
  {
    if Contains(st.readbuffer, st.expectstr) {
      var m;
      m, t := Takes(cfg, sent, s, k, st);
      found := Sequences.Some(m);
    } else if st.loops.end && Contains(st.readbuffer, LoopText(cfg, st.scriptindex - 1)) {
      var m;
      m, t := Returns(cfg, sent, s, k, st);
      found := Sequences.Some(m);
    } else {
      found, t := Sequences.None, st;
    }
  }

  lemma MatchInv(cfg: Config, base: nat, st: State)
    requires GoodScript(cfg, base) && Inv(cfg, base, st) && st.expecting
    ensures Inv(cfg, base, LoopBack(TakeExpected(st)))
  {
    TakeExpectedInv(cfg, base, st);
    if TakeExpected(st).loops.end {
      var _ := LoopBackTarget(cfg, base, TakeExpected(st));
    }
  }

  lemma ScanAside(cfg: Config, sent: seq<string>, s: string, k: Mark, st: State, scan: Scanner)
    requires ValidConfig(cfg) && Behind(cfg, sent, s, k, st)
    ensures Behind(cfg, sent, s, k, st.(scan := scan))
  {
  }

  lemma ScanAsideInv(cfg: Config, base: nat, st: State, scan: Scanner)
    requires ValidConfig(cfg) && Inv(cfg, base, st)
    ensures Inv(cfg, base, st.(scan := scan))
  {
  }

  ghost predicate Smaller(t: State, st: State) {
    && |t.readbuffer| <= |st.readbuffer|
    && (!t.expecting && |t.readbuffer| == |st.readbuffer| ==>
          (st.loops.end && !t.loops.end)
          || (t.loops.end == st.loops.end && t.scriptindex == st.scriptindex && st.expectstr == ""))
  }

  /** A match uses up characters, ends a pending loop, or was the empty string. */
  lemma MatchShrinks(cfg: Config, st: State)
    requires ValidConfig(cfg) && Valid(st) && st.expecting && (st.loops.end ==> Pending(cfg, st))
    ensures Smaller(LoopBack(TakeExpected(st)), st)
  {
  }

  /** One call of `checkBuffers`, up to the re-entry of `timerEvent`. */
  lemma CheckOnce(cfg: Config, sent: seq<string>, s: string, k: Mark, st: State)
    returns (found: Sequences.Option<Match>, t: State)
    requires ValidConfig(cfg) && (st.loops.end ==> Pending(cfg, st)) && Listening(st) && st.expecting
    requires Behind(cfg, sent, s, k, st)
    ensures t == LoopBack(TakeExpected(st.(scan := FinishScan(st.scan)))) && Listening(t)
    ensures t.expecting <==> found.None?
    ensures found.None? ==> Behind(cfg, sent, s, k, t) && Quiet(t)
    ensures found.Some? ==>
              var m := found.value;
              Follow(cfg, k, m) && Found(cfg, k, m, s) && Behind(cfg, sent, s, Next(cfg, k, m), t)
    ensures Smaller(t, st) && (st.loops.end ==> Decides(cfg, found, st.scriptindex - 1, st.readbuffer))
  {
    var s0 := st.(scan := FinishScan(st.scan));
    ScanAside(cfg, sent, s, k, st, s0.scan);
    MatchShrinks(cfg, s0);
    found, t := FirstMatch(cfg, sent, s, k, s0);
  }

  lemma CheckInv(cfg: Config, base: nat, st: State, t: State)
    requires GoodScript(cfg, base) && Inv(cfg, base, st) && st.expecting && st.live
    requires t == LoopBack(TakeExpected(st.(scan := FinishScan(st.scan))))
    ensures Inv(cfg, base, t)
  {
    ScanAsideInv(cfg, base, st, FinishScan(st.scan));
    MatchInv(cfg, base, st.(scan := FinishScan(st.scan)));
  }

  lemma CheckUnfolds(cfg: Config, st: State, t: State)
    requires ValidConfig(cfg) && Valid(st) && st.expecting && Valid(t) && t.live
    requires t == LoopBack(TakeExpected(st.(scan := FinishScan(st.scan))))
    ensures CheckBuffers(cfg, st) == if t.expecting then t else TimerEvent(cfg, t)
  {
  }

  lemma {:induction false} CheckBuffersFollows(cfg: Config, base: nat, sent: seq<string>, s: string, k: Mark, st: State)
    returns (w: Trail)
    requires GoodScript(cfg, base) && Inv(cfg, base, st) && Listening(st) && Behind(cfg, sent, s, k, st)
    ensures Leads(cfg, s, k, w) && OnWay(cfg, sent, s, End(cfg, k, w), CheckBuffers(cfg, st))
    ensures st.expecting && st.loops.end ==> Decides(cfg, First(w), st.scriptindex - 1, st.readbuffer)
    decreases |st.readbuffer|, Bit(st.loops.end), Rem(cfg, st), if st.expectstr == "" then 2 else 0, 0
  {
    w := Stop;
    if st.expecting {
      if st.loops.end {
        InvPending(cfg, base, st);
      }
      var found, t := CheckOnce(cfg, sent, s, k, st);
      CheckUnfolds(cfg, st, t);
      if found.Some? {
        CheckInv(cfg, base, st, t);
        var rest := TimerEventFollows(cfg, base, sent, s, Next(cfg, k, found.value), t);
        w := Hop(found.value, rest);
      }
    } else {
      ScanAside(cfg, sent, s, k, st, FinishScan(st.scan));
    }
  }

  lemma {:induction false} TimerEventFollows(cfg: Config, base: nat, sent: seq<string>, s: string, k: Mark, st: State)
    returns (w: Trail)
    requires GoodScript(cfg, base) && Inv(cfg, base, st) && Listening(st) && Behind(cfg, sent, s, k, st) && Quiet(st)
    ensures Leads(cfg, s, k, w) && OnWay(cfg, sent, s, End(cfg, k, w), TimerEvent(cfg, st))
    decreases |st.readbuffer|, Bit(st.loops.end), Rem(cfg, st), 1, 2
  {
    w := Stop;
    if st.pausing || st.expecting {
    } else if st.phase == Answering {
      if !Immediate(st, cfg.answerResp) {
        var t := AnswerFollows(cfg, sent, s, k, st);
      }
    } else if st.phase == Scripting && !st.scan.on && st.scriptindex < |cfg.comlist| {
      w := RunCommandFollows(cfg, base, sent, s, k, st);
    }
  }

  lemma {:induction false} RunCommandFollows(cfg: Config, base: nat, sent: seq<string>, s: string, k: Mark, st: State)
    returns (w: Trail)
    requires GoodScript(cfg, base) && Inv(cfg, base, st) && Listening(st) && Behind(cfg, sent, s, k, st)
    requires st.phase == Scripting && !st.expecting && st.scriptindex < |cfg.comlist|
    ensures Leads(cfg, s, k, w) && OnWay(cfg, sent, s, End(cfg, k, w), RunCommand(cfg, st))
    decreases |st.readbuffer|, Bit(st.loops.end), Rem(cfg, st), 1, 0
  {
    w := Stop;
    if !Waits(cfg, st) {
      SimpleFollows(cfg, base, sent, s, k, st);
    } else if cfg.comlist[st.scriptindex] == Expect {
      var t := ExpectStarts(cfg, sent, s, k, st);
      ExpectInv(cfg, base, st, t);
      assert RunCommand(cfg, st) == CheckBuffers(cfg, t);
      w := CheckBuffersFollows(cfg, base, sent, s, k, t);
    } else if !Immediate(Prepare(cfg, st), Awaited(cfg, st)) {
      var t := WaitFollows(cfg, sent, s, k, st);
    }
  }

  lemma {:induction false} LeadsStill(cfg: Config, s: string, more: string, k: Mark, w: Trail)
    requires |cfg.comlist| == |cfg.arglist| && Leads(cfg, s, k, w)
    ensures Leads(cfg, s + more, k, w)
    decreases w
  {
    if w.Hop? {
      assert (s + more)[k.cut..w.m.cut] == s[k.cut..w.m.cut];
      LeadsStill(cfg, s, more, Next(cfg, k, w.m), w.rest);
    }
  }

  lemma Hears(cfg: Config, sent: seq<string>, s: string, k: Mark, st: State, c: char)
    requires ValidConfig(cfg) && Behind(cfg, sent, s, k, st)
    ensures Behind(cfg, sent, s + [c], k, if Listening(st) then Receive(st, c) else st)
  {
    assert (s + [c])[k.cut..] == s[k.cut..] + [c];
  }

  lemma Receives(cfg: Config, base: nat, st: State, c: char) returns (t: State)
    requires ValidConfig(cfg) && Inv(cfg, base, st) && Listening(st)
    ensures t == Receive(st, c) && Inv(cfg, base, t) && Listening(t)
    ensures Step(cfg, st, Char(c)) == CheckBuffers(cfg, t)
  {
    t := Receive(st, c);
  }

  lemma CharFollows(cfg: Config, base: nat, sent: seq<string>, s: string, k: Mark, st: State, c: char)
    returns (w: Trail)
    requires GoodScript(cfg, base) && Inv(cfg, base, st) && Behind(cfg, sent, s, k, st) && Quiet(st)
    ensures Leads(cfg, s + [c], k, w) && OnWay(cfg, sent, s + [c], End(cfg, k, w), Step(cfg, st, Char(c)))
    ensures Listening(st) && st.loops.end ==> Decides(cfg, First(w), st.scriptindex - 1, st.readbuffer + [c])
  {
    w := Stop;
    Hears(cfg, sent, s, k, st, c);
    if Listening(st) {
      var t := Receives(cfg, base, st, c);
      w := CheckBuffersFollows(cfg, base, sent, s + [c], k, t);
    }
  }

  lemma StepFollows(cfg: Config, base: nat, sent: seq<string>, s: string, k: Mark, st: State, e: Event)
    returns (w: Trail)
    requires GoodScript(cfg, base) && Inv(cfg, base, st) && Behind(cfg, sent, s, k, st) && Quiet(st) && !e.TimedOut?
    ensures Leads(cfg, LoginStream.Heard(s, e), k, w)
    ensures OnWay(cfg, sent, LoginStream.Heard(s, e), End(cfg, k, w), Step(cfg, st, e))
  {
    w := Stop;
    if e.Char? {
      w := CharFollows(cfg, base, sent, s, k, st, e.c);
    } else if !e.Tick? {
      OtherFollows(cfg, sent, s, k, st, e);
    } else if Listening(st) {
      w := TimerEventFollows(cfg, base, sent, s, k, st);
    }
  }

  /** In script mode the other events leave the script where it is. */
  lemma OtherFollows(cfg: Config, sent: seq<string>, s: string, k: Mark, st: State, e: Event)
    requires ValidConfig(cfg) && Behind(cfg, sent, s, k, st) && Quiet(st)
    requires !e.TimedOut? && !e.Char? && !e.Tick?
    ensures Behind(cfg, sent, s, k, Step(cfg, st, e)) && Quiet(Step(cfg, st, e))
  {
  }

  ghost predicate NoTimeout(events: seq<Event>) {
    forall e <- events :: !e.TimedOut?
  }

  lemma {:induction false} RunFollows(cfg: Config, base: nat, sent: seq<string>, s: string, k: Mark, st: State,
                                      events: seq<Event>)
    returns (w: Trail)
    requires GoodScript(cfg, base) && Inv(cfg, base, st) && Behind(cfg, sent, s, k, st) && Quiet(st)
    requires NoTimeout(events)
    ensures Leads(cfg, s + LoginStream.Stream(events), k, w)
    ensures OnWay(cfg, sent, s + LoginStream.Stream(events), End(cfg, k, w), Run(cfg, st, events))
    decreases |events|
  {
    w := Stop;
    if events == [] {
      Sequences.EmptyLast(s);
    } else {
      var e, next := events[0], Step(cfg, st, events[0]);
      assert e in events && forall x <- events[1..] :: x in events;
      LoginStream.HeardFirst(s, events);
      StepSound(cfg, base, st, e);
      w := StepFollows(cfg, base, sent, s, k, st, e);
      if !Early(next) {
        var rest := RunFollows(cfg, base, sent, LoginStream.Heard(s, e), End(cfg, k, w), next, events[1..]);
        LeadsStill(cfg, LoginStream.Heard(s, e), LoginStream.Stream(events[1..]), k, w);
        LeadsOn(cfg, s + LoginStream.Stream(events), k, w, rest);
        w := Append(w, rest);
      } else {
        LeadsStill(cfg, LoginStream.Heard(s, e), LoginStream.Stream(events[1..]), k, w);
      }
    }
  }

  ghost function Texts(w: Trail): seq<string> {
    match w
    case Stop => []
    case Hop(m, rest) => [m.text] + Texts(rest)
  }

  ghost function Places(w: Trail): seq<nat> {
    match w
    case Stop => []
    case Hop(m, rest) => [m.at] + Places(rest)
  }

  /** The texts of a way lie in the stream one behind the other. */
  lemma {:induction false} WayIsPlaced(cfg: Config, s: string, k: Mark, w: Trail)
    requires |cfg.comlist| == |cfg.arglist| && Leads(cfg, s, k, w)
    ensures LoginStream.Placed(Texts(w), s, Places(w))
    ensures w.Hop? ==> k.cut <= Places(w)[0]
    decreases w
  {
    if w.Hop? {
      FoundAt(cfg, k, w.m, s);
      WayIsPlaced(cfg, s, Next(cfg, k, w.m), w.rest);
      PlacedFirst(w.m, w.rest, s);
    }
  }

  lemma PlacedFirst(m: Match, w: Trail, s: string)
    requires LoginStream.Placed(Texts(w), s, Places(w)) && MatchAt(s, m.at, m.text)
    requires w.Hop? ==> m.at + |m.text| <= Places(w)[0]
    ensures LoginStream.Placed(Texts(Hop(m, w)), s, Places(Hop(m, w)))
  {
    var ts, ps := Texts(Hop(m, w)), Places(Hop(m, w));
    forall k: nat | k < |ps| ensures MatchAt(s, ps[k], ts[k]) {
      if k > 0 {
        assert MatchAt(s, Places(w)[k - 1], Texts(w)[k - 1]);
      }
    }
    forall k: nat | k + 1 < |ps| ensures ps[k] + |ts[k]| <= ps[k + 1] {
      if k > 0 {
        assert Places(w)[k - 1] + |Texts(w)[k - 1]| <= Places(w)[k];
      }
    }
  }

  lemma FoundAt(cfg: Config, k: Mark, m: Match, s: string)
    requires |cfg.comlist| == |cfg.arglist| && m.entry < |cfg.comlist| && Found(cfg, k, m, s)
    ensures MatchAt(s, m.at, m.text) && k.cut <= m.at && m.at + |m.text| <= m.cut <= |s|
  {
    var since := s[k.cut..m.cut];
    FindLeftmost(since, m.text);
    Sequences.SliceOfSlice(s, k.cut, m.cut, Find(since, m.text), Find(since, m.text) + |m.text|);
  }

  const FIRST := Mark(0, false, 0, [])

  /** Script mode has just been entered, with `base` loop slots left behind by
      earlier sessions. */
  ghost predicate Begins(base: nat, st: State) {
    SessionStart(base, st) && LoginStream.Begins(st)
  }

  lemma BeginFollows(cfg: Config, base: nat, st: State)
    requires GoodScript(cfg, base) && Begins(base, st)
    ensures Inv(cfg, base, st) && Behind(cfg, st.sent, st.readbuffer, FIRST, st) && Quiet(st)
  {
    assert st.readbuffer[0..] == st.readbuffer;
    assert st.sent + [] + [] == st.sent;
  }

  /** In every run of a checked script, until it times out, the strings matched
      so far lie in the received stream one behind the other, each found by the
      entry that the static nesting of the script leads to, and what was sent is
      what lies on that way; or a string was buffered early. */
  lemma MatchesArePlaced(cfg: Config, base: nat, st: State, events: seq<Event>) returns (w: Trail)
    requires GoodScript(cfg, base) && Begins(base, st) && NoTimeout(events)
    ensures var s := st.readbuffer + LoginStream.Stream(events);
            && Leads(cfg, s, FIRST, w) && LoginStream.Placed(Texts(w), s, Places(w))
            && OnWay(cfg, st.sent, s, End(cfg, FIRST, w), Run(cfg, st, events))
  {
    BeginFollows(cfg, base, st);
    w := RunFollows(cfg, base, st.sent, st.readbuffer, FIRST, st, events);
    WayIsPlaced(cfg, st.readbuffer + LoginStream.Stream(events), FIRST, w);
  }

  /** In every such run: when a character comes in while a loop end is pending,
      the script jumps back iff the string of the loop occurs in what came in
      since the last match and the awaited one does not. */
  lemma LoopEndDecides(cfg: Config, base: nat, st: State, events: seq<Event>, c: char)
    returns (w: Trail, more: Trail)
    requires GoodScript(cfg, base) && Begins(base, st) && NoTimeout(events)
    requires var p := Run(cfg, st, events); !Early(p) && Listening(p) && p.loops.end
    ensures var s, p := st.readbuffer + LoginStream.Stream(events), Run(cfg, st, events);
            var k := End(cfg, FIRST, w);
            && Leads(cfg, s, FIRST, w) && Behind(cfg, st.sent, s, k, p)
            && Leads(cfg, s + [c], k, more) && OnWay(cfg, st.sent, s + [c], End(cfg, k, more), Step(cfg, p, Char(c)))
            && p.scriptindex > 0 && Decides(cfg, First(more), p.scriptindex - 1, s[k.cut..] + [c])
  {
    BeginFollows(cfg, base, st);
    SessionSound(cfg, base, st, events);
    w := RunFollows(cfg, base, st.sent, st.readbuffer, FIRST, st, events);
    var k := End(cfg, FIRST, w);
    more := CharFollows(cfg, base, st.sent, st.readbuffer + LoginStream.Stream(events), k, Run(cfg, st, events), c);
  }
}
