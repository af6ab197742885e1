/** `removedns` undoes every edit of /etc/resolv.conf, byte for byte.  Each
    operation keeps what removal would restore: lines with the temporary mark
    go away, disabled lines are unwrapped. */
module ResolvUndo {
  import opened Sequences
  import opened Text
  import opened ResolvConf

  // ----- files as lists of lines

  /** None of the lines contains a newline. */
  ghost predicate LineList(ls: seq<string>) {
    ls == [] || (LineList(ls[..|ls| - 1]) && NoNewline(ls[|ls| - 1]))
  }

  lemma SnocParts(ls: seq<string>, line: string)
    ensures (ls + [line])[..|ls + [line]| - 1] == ls && (ls + [line])[|ls + [line]| - 1] == line
  {
  }

  lemma InitLast(ls: seq<string>)
    requires ls != []
    ensures ls == ls[..|ls| - 1] + [ls[|ls| - 1]]
  {
  }

  lemma {:induction false} LineListAppend(a: seq<string>, b: seq<string>)
    requires LineList(a) && LineList(b)
    ensures LineList(a + b)
  {
    if b == [] {
      assert a + b == a;
    } else {
      LineListAppend(a, b[..|b| - 1]);
      assert (a + b)[..|a + b| - 1] == a + b[..|b| - 1];
    }
  }

  lemma {:induction false} SplitJoin(s: string)
    ensures s == Join(Lines(s)) + Tail(s)
    ensures LineList(Lines(s)) && NoNewline(Tail(s))
  {
    if s != "" {
      var p := s[..|s| - 1];
      SplitJoin(p);
      assert s == p + [s[|s| - 1]];
      if s[|s| - 1] == '\n' {
        JoinAppend(Lines(p), [Tail(p)]);
        JoinOne(Tail(p));
        SnocParts(Lines(p), Tail(p));
      }
    }
  }

  lemma {:induction false} LinesAppendLine(s: string, line: string)
    requires Tail(s) == "" && NoNewline(line)
    ensures Lines(s + line) == Lines(s) && Tail(s + line) == line
  {
    if line == "" {
      assert s + line == s;
    } else {
      var p := line[..|line| - 1];
      LinesAppendLine(s, p);
      assert (s + line)[..|s + line| - 1] == s + p;
      assert line == p + [line[|line| - 1]];
    }
  }

  lemma {:induction false} LinesOfAppended(s: string, ls: seq<string>)
    requires Tail(s) == "" && LineList(ls)
    ensures Lines(s + Join(ls)) == Lines(s) + ls && Tail(s + Join(ls)) == ""
  {
    if ls == [] {
      assert s + "" == s && Lines(s) + [] == Lines(s);
    } else {
      var init, last := ls[..|ls| - 1], ls[|ls| - 1];
      LinesOfAppended(s, init);
      LinesAppendFull(s + Join(init), last);
      AppendedText(s, Join(init), last);
      LinesSnoc(Lines(s), ls);
    }
  }

  lemma AppendedText(s: string, joined: string, last: string)
    ensures s + (joined + last + "\n") == s + joined + last + "\n"
  {
  }

  lemma LinesSnoc(before: seq<string>, ls: seq<string>)
    requires ls != []
    ensures before + ls == before + ls[..|ls| - 1] + [ls[|ls| - 1]]
  {
  }

  lemma LinesAppendFull(t: string, line: string)
    requires Tail(t) == "" && NoNewline(line)
    ensures Lines(t + line + "\n") == Lines(t) + [line] && Tail(t + line + "\n") == ""
  {
    LinesAppendLine(t, line);
    var whole := t + line + "\n";
    assert whole[..|whole| - 1] == t + line;
  }

  lemma LinesOfJoin(ls: seq<string>)
    requires LineList(ls)
    ensures Lines(Join(ls)) == ls && Tail(Join(ls)) == ""
  {
    LinesOfAppended("", ls);
    assert "" + Join(ls) == Join(ls) && Lines("") + ls == ls;
  }

  /** A newline-free text is in a file only if it is in one of its lines. */
  lemma {:induction false} LineOrTail(s: string, t: string) returns (i: nat)
    requires NoNewline(t) && t != "" && Contains(s, t)
    ensures i <= |Lines(s)|
    ensures if i < |Lines(s)| then Contains(Lines(s)[i], t) else Contains(Tail(s), t)
  {
    var p, c := s[..|s| - 1], s[|s| - 1];
    FindLeftmost(s, t);
    var at := Find(s, t);
    if at + |t| < |s| {
      assert p[at..at + |t|] == s[at..at + |t|];
      ContainsAt(p, t, at);
      i := LineOrTail(p, t);
      if c != '\n' && i == |Lines(p)| {
        assert Tail(s) == "" + Tail(p) + [c];
        ContainsInside("", Tail(p), [c], t);
      }
    } else {
      i := |Lines(s)|;
      forall k | at <= k < |s| ensures s[k] != '\n' {
        assert s[at..at + |t|][k - at] == s[k];
      }
      SuffixInTail(s, at);
      var r := Tail(s);
      assert r[|r| - |t|..|r|] == t;
      ContainsAt(r, t, |r| - |t|);
    }
  }

  lemma {:induction false} SuffixInTail(s: string, at: nat)
    requires at <= |s| && forall k | at <= k < |s| :: s[k] != '\n'
    ensures |s| - at <= |Tail(s)| && Tail(s)[|Tail(s)| - (|s| - at)..] == s[at..]
  {
    if at < |s| {
      var q, c := s[..|s| - 1], s[|s| - 1];
      SuffixInTail(q, at);
      var r := Tail(q);
      assert Tail(s) == r + [c] && s[at..] == q[at..] + [c];
      assert (r + [c])[|r| - (|q| - at)..] == r[|r| - (|q| - at)..] + [c];
    }
  }

  // ----- markers do not straddle

  lemma ContainsInside(a: string, b: string, c: string, t: string)
    requires Contains(b, t)
    ensures Contains(a + b + c, t)
  {
    FindLeftmost(b, t);
    var p := Find(b, t);
    var w := a + b + c;
    forall k | 0 <= k < |t| ensures w[|a| + p + k] == t[k] {
      assert b[p..p + |t|][k] == b[p + k];
    }
    assert w[|a| + p..|a| + p + |t|] == t;
    ContainsAt(a + b + c, t, |a| + p);
  }

  lemma DisableMarks(line: string)
    ensures Contains(Disable(line), DISABLED)
    ensures |Disable(line)| == |line| + 27 && Undisable(Disable(line)) == line
    ensures Disable(line)[..2] == "# "
  {
    var w := Disable(line);
    assert w == ("# " + line + " \t") + DISABLED + "";
    assert |DISABLED| == 23;
    assert w[2..|w| - 25] == line;
    assert MatchAt(DISABLED, 0, DISABLED);
    ContainsAt(DISABLED, DISABLED, 0);
    ContainsInside("# " + line + " \t", DISABLED, "", DISABLED);
  }

  const SUFFIX := " \t" + DISABLED

  /** The temporary mark cannot begin in the wrapping or run into it. */
  lemma DisableAddsNoTemp(line: string)
    ensures Contains(Disable(line), TEMP) <==> Contains(line, TEMP)
  {
    var w := Disable(line);
    assert w == "# " + line + SUFFIX;
    if Contains(line, TEMP) {
      ContainsInside("# ", line, SUFFIX, TEMP);
    }
    if Contains(w, TEMP) {
      FindLeftmost(w, TEMP);
      var p := Find(w, TEMP);
      TempInsideLine(line, p);
      ContainsAt(line, TEMP, p - 2);
    }
  }

  lemma TempInsideLine(line: string, p: nat)
    requires MatchAt(Disable(line), p, TEMP)
    ensures p >= 2 && MatchAt(line, p - 2, TEMP)
  {
    var w, n := Disable(line), |line| + 2;
    TempChars();
    if p >= n {
      HashInSuffix(line, p);
    } else if p + 16 > n {
      SpaceIsNotLast(n - p);
      NoTabBehindSpace(n - p);
    } else {
      assert line[p - 2..p - 2 + 16] == w[p..p + 16];
    }
  }

  lemma TempChars()
    ensures |TEMP| == 16 && TEMP[0] == '#' && TEMP[1] == 'k'
  {
  }

  lemma HashInSuffix(line: string, p: nat)
    requires |line| + 2 <= p && p + 1 < |Disable(line)| && Disable(line)[p] == '#'
    ensures Disable(line)[p + 1] == 'e'
  {
    var i := p - (|line| + 2);
    assert Disable(line)[p] == SUFFIX[i] && Disable(line)[p + 1] == SUFFIX[i + 1];
    OnlyHash(i);
  }

  lemma OnlyHash(i: nat)
    requires i < |SUFFIX| && SUFFIX[i] == '#'
    ensures i == 2 && SUFFIX[i + 1] == 'e'
  {
    assert SUFFIX == " \t#entry disabled by kppp";
  }

  lemma SpaceIsNotLast(j: nat)
    requires j < |TEMP| && TEMP[j] == ' '
    ensures j + 1 < |TEMP|
  {
    assert TEMP[15] == 'y';
  }

  lemma NoTabBehindSpace(j: nat)
    requires j + 1 < |TEMP| && TEMP[j] == ' '
    ensures TEMP[j + 1] != '\t'
  {
  }

  // ----- what removal makes of an edited line

  ghost predicate Unmarked(line: string) {
    !Contains(line, TEMP) && !Contains(line, DISABLED)
  }

  /** A line as it can occur while kppp is connected. */
  ghost predicate Ours(line: string) {
    && NoNewline(line)
    && (|| Contains(line, TEMP)
        || Unmarked(line)
        || (line == Disable(Undisable(line)) && Unmarked(Undisable(line))))
  }

  lemma AddLineKeeps(line: string, exDNSDisabled: bool)
    requires Ours(line)
    ensures var r := AddLine(line, exDNSDisabled);
            Ours(r) && RestoreLine(r) == RestoreLine(line)
  {
    if Disables(line, exDNSDisabled) {
      DisableMarks(line);
      DisableAddsNoTemp(line);
    }
  }

  ghost predicate AllOurs(ls: seq<string>) {
    ls == [] || (AllOurs(ls[..|ls| - 1]) && Ours(ls[|ls| - 1]))
  }

  lemma {:induction false} AllOursAppend(a: seq<string>, b: seq<string>)
    requires AllOurs(a) && AllOurs(b)
    ensures AllOurs(a + b)
  {
    if b == [] {
      assert a + b == a;
    } else {
      var init, last := b[..|b| - 1], b[|b| - 1];
      AllOursAppend(a, init);
      LastApart(a, b);
      SnocParts(a + init, last);
    }
  }

  lemma {:induction false} OursAreLines(ls: seq<string>)
    requires AllOurs(ls)
    ensures LineList(ls)
  {
    if ls != [] {
      OursAreLines(ls[..|ls| - 1]);
    }
  }

  lemma {:induction false} AddLinesKeeps(ls: seq<string>, exDNSDisabled: bool)
    requires AllOurs(ls)
    ensures var r := AddLines(ls, exDNSDisabled);
            |r| == |ls| && AllOurs(r) && Restore(r) == Restore(ls)
  {
    if ls != [] {
      var init, line := ls[..|ls| - 1], ls[|ls| - 1];
      AddLinesKeeps(init, exDNSDisabled);
      AddLineKeeps(line, exDNSDisabled);
      SnocParts(AddLines(init, exDNSDisabled), AddLine(line, exDNSDisabled));
    }
  }

  lemma RestoreSnoc(ls: seq<string>, line: string)
    ensures Restore(ls + [line]) == Restore(ls) + RestoreLine(line)
  {
    SnocParts(ls, line);
  }

  lemma {:induction false} RestoreAppend(a: seq<string>, b: seq<string>)
    ensures Restore(a + b) == Restore(a) + Restore(b)
  {
    if b == [] {
      assert a + b == a;
    } else {
      var init, last := b[..|b| - 1], b[|b| - 1];
      calc {
        Restore(a + b);
        { assert a + b == a + init + [last]; }
        Restore(a + init + [last]);
        { RestoreSnoc(a + init, last); }
        Restore(a + init) + RestoreLine(last);
        { RestoreAppend(a, init); }
        Restore(a) + Restore(init) + RestoreLine(last);
        { Assoc(Restore(a), Restore(init), RestoreLine(last)); }
        Restore(a) + (Restore(init) + RestoreLine(last));
        Restore(a) + Restore(b);
      }
    }
  }

  ghost predicate Temporary(line: string) {
    NoNewline(line) && Contains(line, TEMP)
  }

  ghost predicate AllTemp(ls: seq<string>) {
    ls == [] || (AllTemp(ls[..|ls| - 1]) && Temporary(ls[|ls| - 1]))
  }

  lemma {:induction false} TempAreOurs(ls: seq<string>)
    requires AllTemp(ls)
    ensures AllOurs(ls) && LineList(ls)
  {
    if ls != [] {
      TempAreOurs(ls[..|ls| - 1]);
    }
  }

  lemma {:induction false} RestoreDropsTemp(ls: seq<string>)
    requires AllTemp(ls)
    ensures Restore(ls) == []
  {
    if ls != [] {
      RestoreDropsTemp(ls[..|ls| - 1]);
    }
  }

  lemma TempLines(domain: string, server: string, text: string)
    requires NoNewline(domain) && NoNewline(server) && NoNewline(text)
    ensures Temporary(DomainLine(domain)) && Temporary(ServerLine(server)) && Temporary(text + "\t" + TEMP)
  {
    assert MatchAt(TEMP, 0, TEMP);
    ContainsAt(TEMP, TEMP, 0);
    ContainsInside("domain " + domain + " \t\t", TEMP, "", TEMP);
    ContainsInside("nameserver " + server + " \t", TEMP, "", TEMP);
    ContainsInside(text + "\t", TEMP, "", TEMP);
    assert DomainLine(domain) == ("domain " + domain + " \t\t") + TEMP + "";
    assert ServerLine(server) == ("nameserver " + server + " \t") + TEMP + "";
    assert text + "\t" + TEMP == (text + "\t") + TEMP + "";
    assert NoNewline("domain ") && NoNewline("nameserver ") && NoNewline(TEMP);
  }

  lemma DomainIsTemp(domain: string)
    requires NoNewline(domain)
    ensures AllTemp([DomainLine(domain)])
  {
    TempLines(domain, "", "");
    assert [DomainLine(domain)][..0] == [];
  }

  lemma {:induction false} ServersAreTemp(servers: seq<string>)
    requires LineList(servers)
    ensures AllTemp(ServerLines(servers))
  {
    if servers != [] {
      ServersAreTemp(servers[..|servers| - 1]);
      TempLines("", servers[|servers| - 1], "");
      SnocParts(ServerLines(servers[..|servers| - 1]), ServerLine(servers[|servers| - 1]));
    }
  }

  /** The peer's lines, each with the temporary mark. */
  ghost function Tagged(ls: seq<string>): (r: seq<string>) {
    if ls == [] then [] else Tagged(ls[..|ls| - 1]) + [ls[|ls| - 1] + "\t" + TEMP]
  }

  lemma {:induction false} TaggedAreTemp(ls: seq<string>)
    requires LineList(ls)
    ensures AllTemp(Tagged(ls))
  {
    if ls != [] {
      TaggedAreTemp(ls[..|ls| - 1]);
      TempLines("", "", ls[|ls| - 1]);
      SnocParts(Tagged(ls[..|ls| - 1]), ls[|ls| - 1] + "\t" + TEMP);
    }
  }

  lemma {:induction false} TagLines(peer: string)
    ensures Tag(peer) == Join(Tagged(Lines(peer))) + Tail(peer)
  {
    if peer != "" {
      var p, c := peer[..|peer| - 1], peer[|peer| - 1];
      TagLines(p);
      if c == '\n' {
        TaggedSnoc(Lines(p), Tail(p));
      } else {
        Assoc(Join(Tagged(Lines(p))), Tail(p), [c]);
      }
    }
  }

  lemma TaggedSnoc(ls: seq<string>, tail: string)
    ensures Join(Tagged(ls + [tail])) + "" == Join(Tagged(ls)) + tail + ("\t" + TEMP + "\n")
  {
    var line := tail + "\t" + TEMP;
    assert (ls + [tail])[..|ls|] == ls;
    JoinAppend(Tagged(ls), [line]);
    JoinOne(line);
    assert Join(Tagged(ls)) + (line + "\n") == Join(Tagged(ls)) + tail + ("\t" + TEMP + "\n");
  }

  // ----- operations and runs

  datatype Op =
    | DomainOp(domain: string, exDNSDisabled: bool, uninit: char)
    | DnsOp(servers: seq<string>, domain: string, exDNSDisabled: bool, uninit: char)
    | PeerOp(peer: string, domain: string, exDNSDisabled: bool, uninit: char)
    | RemoveOp

  ghost function Apply(op: Op, s: string): string {
    match op
    case DomainOp(d, x, u) => WithDomain(s, d, x, u)
    case DnsOp(servers, d, x, u) => WithDns(s, servers, d, x, u)
    case PeerOp(peer, d, x, u) => WithPeerDns(s, peer, d, x, u)
    case RemoveOp => WithoutDns(s)
  }

  /** One-line entries, and a peer file that ends with a newline (or is empty)
      as far as it is copied. */
  ghost predicate Proper(op: Op) {
    match op
    case DomainOp(d, _, _) => NoNewline(d)
    case DnsOp(servers, d, _, _) => LineList(servers) && NoNewline(d)
    case PeerOp(peer, d, _, _) => Terminated(PeerText(peer)) && NoNewline(d)
    case RemoveOp => true
  }

  ghost function RunOps(ops: seq<Op>, s: string): string {
    if ops == [] then s else Apply(ops[|ops| - 1], RunOps(ops[..|ops| - 1], s))
  }

  ghost predicate ProperOps(ops: seq<Op>) {
    forall i | 0 <= i < |ops| :: Proper(ops[i])
  }

  ghost predicate InLimit(s: string) {
    |Lines(s)| <= MAX_RESOLVCONF_LINES
  }

  /** At no time has the file more lines than the array of the readers. */
  ghost predicate Fits(ops: seq<Op>, s: string) {
    InLimit(RunOps(ops, s)) && (ops == [] || Fits(ops[..|ops| - 1], s))
  }

  ghost predicate Clean(s: string) {
    s != "" && Terminated(s) && !Contains(s, TEMP) && !Contains(s, DISABLED)
  }

  ghost predicate AllUnmarked(ls: seq<string>) {
    ls == [] || (AllUnmarked(ls[..|ls| - 1]) && Unmarked(ls[|ls| - 1]))
  }

  ghost predicate UnmarkedLines(s: string) {
    AllUnmarked(Lines(s))
  }

  /** The file can be turned back into `original`. */
  ghost predicate Undoable(original: string, s: string) {
    Tail(s) == "" && AllOurs(Lines(s)) && Join(Restore(Lines(s))) == original
  }

  lemma {:induction false} RestoreUnmarked(ls: seq<string>)
    requires AllUnmarked(ls)
    ensures Restore(ls) == ls
  {
    if ls != [] {
      RestoreUnmarked(ls[..|ls| - 1]);
      InitLast(ls);
    }
  }

  lemma {:induction false} UnmarkedAreOurs(ls: seq<string>)
    requires AllUnmarked(ls) && LineList(ls)
    ensures AllOurs(ls)
  {
    if ls != [] {
      UnmarkedAreOurs(ls[..|ls| - 1]);
    }
  }

  lemma CleanIsUndoable(s: string)
    requires Clean(s)
    ensures Undoable(s, s)
  {
    TailEmpty(s);
    CleanLines(s);
    SplitJoin(s);
    RestoreUnmarked(Lines(s));
    UnmarkedAreOurs(Lines(s));
  }

  lemma {:induction false} CleanLines(s: string)
    requires !Contains(s, TEMP) && !Contains(s, DISABLED)
    ensures UnmarkedLines(s)
  {
    if s != "" {
      var p := s[..|s| - 1];
      assert s == p + [s[|s| - 1]];
      NotInPart(p, [s[|s| - 1]], TEMP);
      NotInPart(p, [s[|s| - 1]], DISABLED);
      CleanLines(p);
      if s[|s| - 1] == '\n' {
        SplitJoin(p);
        NotInTail(p, TEMP);
        NotInTail(p, DISABLED);
        SnocParts(Lines(p), Tail(p));
      }
    }
  }

  lemma NotInPart(a: string, b: string, t: string)
    requires !Contains(a + b, t)
    ensures !Contains(a, t)
  {
    assert "" + a + b == a + b;
    if Contains(a, t) {
      ContainsInside("", a, b, t);
    }
  }

  lemma NotInTail(s: string, t: string)
    requires !Contains(s, t)
    ensures !Contains(Tail(s), t)
  {
    SplitJoin(s);
    assert Join(Lines(s)) + Tail(s) + "" == s;
    if Contains(Tail(s), t) {
      ContainsInside(Join(Lines(s)), Tail(s), "", t);
    }
  }

  /** Appending lines with the temporary mark. */
  lemma AppendTemp(original: string, s: string, ls: seq<string>)
    requires Undoable(original, s) && AllTemp(ls)
    ensures Undoable(original, s + Join(ls))
  {
    TempAreOurs(ls);
    LinesOfAppended(s, ls);
    AllOursAppend(Lines(s), ls);
    RestoreAppend(Lines(s), ls);
    RestoreDropsTemp(ls);
    NothingMore(Restore(Lines(s)));
  }

  lemma DomainKeeps(original: string, s: string, domain: string, exDNSDisabled: bool, uninit: char)
    requires original != "" && Undoable(original, s) && NoNewline(domain)
    requires InLimit(WithDomain(s, domain, exDNSDisabled, uninit))
    ensures Undoable(original, WithDomain(s, domain, exDNSDisabled, uninit))
  {
    if domain != "" {
      assert s != "";
      DomainLines(s, domain, exDNSDisabled, uninit);
      var head, edited := [DomainLine(domain)], AddLines(Lines(s), exDNSDisabled);
      AddLinesKeeps(Lines(s), exDNSDisabled);
      DomainIsTemp(domain);
      TempAreOurs(head);
      AllOursAppend(head, edited);
      RestoreAppend(head, edited);
      RestoreDropsTemp(head);
      EmptyFirst(Restore(edited));
    }
  }

  /** The lines of the file after the domain pass. */
  lemma DomainLines(s: string, domain: string, exDNSDisabled: bool, uninit: char)
    requires s != "" && Tail(s) == "" && AllOurs(Lines(s)) && NoNewline(domain) && domain != ""
    requires InLimit(WithDomain(s, domain, exDNSDisabled, uninit))
    ensures Lines(WithDomain(s, domain, exDNSDisabled, uninit))
         == [DomainLine(domain)] + AddLines(Lines(s), exDNSDisabled)
    ensures Tail(WithDomain(s, domain, exDNSDisabled, uninit)) == ""
  {
    var all := AllLines(s, uninit);
    NothingMore(Lines(s));
    assert all == Take(Lines(s));
    OursPrefix(Lines(s), |all|);
    AddLinesKeeps(all, exDNSDisabled);
    OursAreLines(AddLines(all, exDNSDisabled));
    DomainIsTemp(domain);
    TempAreOurs([DomainLine(domain)]);
    LineListAppend([DomainLine(domain)], AddLines(all, exDNSDisabled));
    LinesOfJoin([DomainLine(domain)] + AddLines(all, exDNSDisabled));
  }

  lemma NothingMore(ls: seq<string>)
    ensures ls + [] == ls
  {
  }

  lemma {:induction false} OursPrefix(ls: seq<string>, n: nat)
    requires AllOurs(ls) && n <= |ls|
    ensures AllOurs(ls[..n])
  {
    if n < |ls| {
      OursPrefix(ls[..|ls| - 1], n);
      assert ls[..|ls| - 1][..n] == ls[..n];
    } else {
      assert ls[..n] == ls;
    }
  }

  /** Dropping back to fewer lines is what the domain pass does last, so the
      limit on its result covers the file it read. */
  lemma ApplyKeeps(original: string, s: string, op: Op)
    requires original != "" && Undoable(original, s) && Clean(original)
    requires Proper(op) && InLimit(s) && InLimit(Apply(op, s))
    ensures Undoable(original, Apply(op, s))
  {
    match op
    case DomainOp(d, x, u) => DomainKeeps(original, s, d, x, u);
    case DnsOp(servers, d, x, u) =>
      ServersAreTemp(servers);
      AppendTemp(original, s, ServerLines(servers));
      DomainKeeps(original, s + Join(ServerLines(servers)), d, x, u);
    case PeerOp(peer, d, x, u) =>
      var p := PeerText(peer);
      TailEmpty(p);
      SplitJoin(p);
      TagLines(p);
      TaggedAreTemp(Lines(p));
      assert Join(Tagged(Lines(p))) + "" == Join(Tagged(Lines(p)));
      AppendTemp(original, s, Tagged(Lines(p)));
      DomainKeeps(original, s + Tag(p), d, x, u);
    case RemoveOp =>
      assert Apply(op, s) == original;
      CleanIsUndoable(original);
  }

  lemma {:induction false} RunKeeps(ops: seq<Op>, original: string)
    requires Clean(original) && ProperOps(ops) && Fits(ops, original)
    ensures Undoable(original, RunOps(ops, original)) && InLimit(RunOps(ops, original))
  {
    if ops == [] {
      CleanIsUndoable(original);
    } else {
      RunKeeps(ops[..|ops| - 1], original);
      ApplyKeeps(original, RunOps(ops[..|ops| - 1], original), ops[|ops| - 1]);
    }
  }

  /** Whatever kppp did in between, removal gives the original back. */
  lemma RemovalRestores(ops: seq<Op>, original: string)
    requires Clean(original) && ProperOps(ops) && Fits(ops, original)
    ensures WithoutDns(RunOps(ops, original)) == original
  {
    RunKeeps(ops, original);
  }

  // ----- the condition is exact

  lemma {:induction false} RestoreShrinks(ls: seq<string>)
    ensures |Join(Restore(ls))| <= |Join(ls)|
    ensures |Join(Restore(ls))| == |Join(ls)| ==> AllUnmarked(ls)
  {
    if ls != [] {
      var init, last := ls[..|ls| - 1], ls[|ls| - 1];
      RestoreShrinks(init);
      JoinAppend(Restore(init), RestoreLine(last));
      assert Join(ls) == Join(init) + last + "\n";
    }
  }

  lemma {:induction false} RestoredAreLines(ls: seq<string>)
    requires LineList(ls)
    ensures LineList(Restore(ls))
  {
    if ls != [] {
      var init, last := ls[..|ls| - 1], ls[|ls| - 1];
      RestoredAreLines(init);
      assert forall r | r in RestoreLine(last) :: NoNewline(r);
      if RestoreLine(last) == [] {
        EmptyLast(Restore(init));
      } else {
        SnocParts(Restore(init), RestoreLine(last)[0]);
        assert Restore(ls) == Restore(init) + [RestoreLine(last)[0]];
      }
    }
  }

  /** A file with more lines than the array never comes back, whatever file
      removal starts from. */
  lemma LongFileIsTruncated(s: string, t: string)
    requires !InLimit(s)
    ensures WithoutDns(t) != s
  {
    SplitJoin(t);
    LineListPrefix(Lines(t), |Take(Lines(t))|);
    RestoredAreLines(Take(Lines(t)));
    LinesOfJoin(Restore(Take(Lines(t))));
  }

  lemma {:induction false} LineListPrefix(ls: seq<string>, n: nat)
    requires LineList(ls) && n <= |ls|
    ensures LineList(ls[..n])
  {
    if n < |ls| {
      LineListPrefix(ls[..|ls| - 1], n);
      assert ls[..|ls| - 1][..n] == ls[..n];
    } else {
      assert ls[..n] == ls;
    }
  }

  lemma UnchangedIsClean(s: string)
    requires InLimit(s) && WithoutDns(s) == s
    ensures Terminated(s) && !Contains(s, TEMP) && !Contains(s, DISABLED)
  {
    UnchangedLines(s);
    UnmarkedFile(s, TEMP);
    UnmarkedFile(s, DISABLED);
  }

  lemma UnmarkedFile(s: string, t: string)
    requires Terminated(s) && UnmarkedLines(s) && (t == TEMP || t == DISABLED)
    ensures !Contains(s, t)
  {
    TailEmpty(s);
    assert NoNewline(t);
    NotInShorter("", t);
    if Contains(s, t) {
      var i := LineOrTail(s, t);
      UnmarkedAt(Lines(s), i);
    }
  }

  lemma {:induction false} UnmarkedAt(ls: seq<string>, i: nat)
    requires AllUnmarked(ls) && i < |ls|
    ensures Unmarked(ls[i])
  {
    if i < |ls| - 1 {
      UnmarkedAt(ls[..|ls| - 1], i);
    }
  }

  lemma UnchangedLines(s: string)
    requires InLimit(s) && WithoutDns(s) == s
    ensures Terminated(s) && UnmarkedLines(s)
  {
    SplitJoin(s);
    TailEmpty(s);
    RestoreShrinks(Lines(s));
  }

  /** On the empty file `add_domain` tests a character it never read; unless
      that happens to be a newline, removal leaves an empty line behind. */
  lemma EmptyFileGains(domain: string, exDNSDisabled: bool, uninit: char)
    requires domain != "" && NoNewline(domain) && uninit != '\n'
    ensures var op := DomainOp(domain, exDNSDisabled, uninit);
            ProperOps([op]) && Fits([op], "") && WithoutDns(RunOps([op], "")) == "\n"
  {
    var op := DomainOp(domain, exDNSDisabled, uninit);
    EmptyFileLines(domain, exDNSDisabled, uninit);
    EmptyFileRestored(domain);
  }

  lemma EmptyFileRestored(domain: string)
    requires NoNewline(domain)
    ensures var ls := [DomainLine(domain)] + [""];
            Lines(Join(ls)) == ls && Join(Restore(ls)) == "\n"
  {
    var ls := [DomainLine(domain)] + [""];
    DomainIsTemp(domain);
    TempAreOurs([DomainLine(domain)]);
    assert [""][..0] == [] && LineList([""]);
    LineListAppend([DomainLine(domain)], [""]);
    LinesOfJoin(ls);
    RestoreAppend([DomainLine(domain)], [""]);
    RestoreDropsTemp([DomainLine(domain)]);
    NotInShorter("", TEMP);
    NotInShorter("", DISABLED);
    RestoreUnmarked([""]);
    EmptyFirst([""]);
    JoinOne("");
  }

  lemma EmptyFileLines(domain: string, exDNSDisabled: bool, uninit: char)
    requires domain != "" && uninit != '\n'
    ensures WithDomain("", domain, exDNSDisabled, uninit) == Join([DomainLine(domain)] + [""])
  {
    assert AllLines("", uninit) == [""];
    NotInShorter("", "domain");
    NotInShorter("", "nameserver");
    assert [""][..0] == [];
    assert AddLines([""], exDNSDisabled) == [""];
  }

  /** For every file the readers can hold: removal undoes every sequence of
      proper operations iff the file is non-empty, ends with a newline and has
      no line with one of kppp's marks. */
  lemma RoundTripIff(s: string)
    requires InLimit(s)
    ensures (forall ops: seq<Op> | ProperOps(ops) && Fits(ops, s) :: WithoutDns(RunOps(ops, s)) == s) <==> Clean(s)
  {
    if Clean(s) {
      forall ops: seq<Op> | ProperOps(ops) && Fits(ops, s) ensures WithoutDns(RunOps(ops, s)) == s {
        RemovalRestores(ops, s);
      }
    } else if s == "" {
      EmptyFileGains("d", false, 'x');
    } else {
      assert RunOps([], s) == s && ProperOps([]) && Fits([], s);
      if WithoutDns(s) == s {
        UnchangedIsClean(s);
      }
    }
  }
}
