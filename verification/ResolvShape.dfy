/** What the file looks like while kppp is connected, and what an unterminated
    peer file does to it. */
module ResolvShape {
  import opened Sequences
  import opened Text
  import opened ResolvConf
  import opened ResolvUndo

  ghost predicate Commented(line: string) {
    |line| >= 2 && line[..2] == "# "
  }

  /** Lines with the disabling mark are comments. */
  ghost predicate Shaped(ls: seq<string>) {
    ls == [] || (Shaped(ls[..|ls| - 1]) && ShapedLine(ls[|ls| - 1]))
  }

  ghost predicate ShapedLine(line: string) {
    Contains(line, DISABLED) ==> Commented(line)
  }

  lemma {:induction false} ShapedAppend(a: seq<string>, b: seq<string>)
    requires Shaped(a) && Shaped(b)
    ensures Shaped(a + b)
  {
    if b == [] {
      assert a + b == a;
    } else {
      ShapedAppend(a, b[..|b| - 1]);
      assert (a + b)[..|a + b| - 1] == a + b[..|b| - 1];
    }
  }

  lemma {:induction false} ShapedIn(ls: seq<string>, line: string)
    requires Shaped(ls) && line in ls
    ensures ShapedLine(line)
  {
    if line != ls[|ls| - 1] {
      ShapedIn(ls[..|ls| - 1], line);
    }
  }

  /** A server or domain the resolver would act on. */
  ghost predicate Active(line: string) {
    (Contains(line, "domain") || (Contains(line, "nameserver") && !Contains(line, TEMP))) && !Commented(line)
  }

  /** No inserted line mentions the disabling mark without being a comment. */
  ghost predicate MarkFree(op: Op) {
    match op
    case DomainOp(d, _, _) => ShapedLine(DomainLine(d))
    case DnsOp(servers, d, _, _) =>
      && ShapedLine(DomainLine(d))
      && Shaped(ServerLines(servers))
    case PeerOp(peer, d, _, _) =>
      && ShapedLine(DomainLine(d))
      && Shaped(Tagged(Lines(PeerText(peer))))
    case RemoveOp => true
  }

  ghost predicate MarkFreeOps(ops: seq<Op>) {
    forall i | 0 <= i < |ops| :: MarkFree(ops[i])
  }

  lemma AddLineShaped(line: string, exDNSDisabled: bool)
    requires ShapedLine(line)
    ensures var r := AddLine(line, exDNSDisabled);
            && ShapedLine(r)
            && (exDNSDisabled ==> !Active(r))
  {
    DisableMarks(line);
  }

  lemma {:induction false} AddLinesShaped(ls: seq<string>, exDNSDisabled: bool)
    requires Shaped(ls)
    ensures var r := AddLines(ls, exDNSDisabled);
            |r| == |ls| && Shaped(r)
  {
    if ls != [] {
      AddLinesShaped(ls[..|ls| - 1], exDNSDisabled);
      AddLineShaped(ls[|ls| - 1], exDNSDisabled);
      SnocParts(AddLines(ls[..|ls| - 1], exDNSDisabled), AddLine(ls[|ls| - 1], exDNSDisabled));
    }
  }

  lemma DomainShaped(original: string, s: string, domain: string, exDNSDisabled: bool, uninit: char)
    requires original != "" && Undoable(original, s) && NoNewline(domain) && Shaped(Lines(s))
    requires ShapedLine(DomainLine(domain))
    requires InLimit(WithDomain(s, domain, exDNSDisabled, uninit))
    ensures Shaped(Lines(WithDomain(s, domain, exDNSDisabled, uninit)))
  {
    if domain != "" {
      DomainLines(s, domain, exDNSDisabled, uninit);
      AddLinesShaped(Lines(s), exDNSDisabled);
      assert [DomainLine(domain)][..0] == [];
      ShapedAppend([DomainLine(domain)], AddLines(Lines(s), exDNSDisabled));
    }
  }

  lemma AppendShaped(s: string, ls: seq<string>)
    requires Tail(s) == "" && LineList(ls) && Shaped(Lines(s)) && Shaped(ls)
    ensures Shaped(Lines(s + Join(ls)))
  {
    LinesOfAppended(s, ls);
    ShapedAppend(Lines(s), ls);
  }

  /** The peer's lines with the mark, as `addpeerdns` appends them. */
  lemma PeerAppends(s: string, peer: string)
    ensures Terminated(peer) ==> s + Tag(peer) == s + Join(Tagged(Lines(peer)))
    ensures s + Tag(peer) == s + Join(Tagged(Lines(peer))) + Tail(peer)
    ensures AllTemp(Tagged(Lines(peer)))
  {
    TagLines(peer);
    TailEmpty(peer);
    SplitJoin(peer);
    TaggedAreTemp(Lines(peer));
    assert s + (Join(Tagged(Lines(peer))) + Tail(peer)) == s + Join(Tagged(Lines(peer))) + Tail(peer);
    assert Join(Tagged(Lines(peer))) + "" == Join(Tagged(Lines(peer)));
  }

  lemma ApplyShaped(original: string, s: string, op: Op)
    requires Clean(original) && Undoable(original, s) && Shaped(Lines(s))
    requires Proper(op) && MarkFree(op) && InLimit(s) && InLimit(Apply(op, s))
    ensures Shaped(Lines(Apply(op, s)))
  {
    match op
    case DomainOp(d, x, u) => DomainShaped(original, s, d, x, u);
    case DnsOp(servers, d, x, u) =>
      ServersAreTemp(servers);
      TempAreOurs(ServerLines(servers));
      AppendShaped(s, ServerLines(servers));
      AppendTemp(original, s, ServerLines(servers));
      DomainShaped(original, s + Join(ServerLines(servers)), d, x, u);
    case PeerOp(peer, d, x, u) =>
      var lines := Lines(PeerText(peer));
      PeerAppends(s, PeerText(peer));
      TempAreOurs(Tagged(lines));
      AppendShaped(s, Tagged(lines));
      AppendTemp(original, s, Tagged(lines));
      DomainShaped(original, s + Join(Tagged(lines)), d, x, u);
    case RemoveOp => CleanShaped(original);
  }

  lemma CleanShaped(s: string)
    requires Clean(s)
    ensures Shaped(Lines(s))
  {
    CleanLines(s);
    UnmarkedShaped(Lines(s));
  }

  lemma {:induction false} UnmarkedShaped(ls: seq<string>)
    requires AllUnmarked(ls)
    ensures Shaped(ls)
  {
    if ls != [] {
      UnmarkedShaped(ls[..|ls| - 1]);
    }
  }

  lemma {:induction false} RunShaped(ops: seq<Op>, original: string)
    requires Clean(original) && ProperOps(ops) && MarkFreeOps(ops) && Fits(ops, original)
    ensures Shaped(Lines(RunOps(ops, original)))
  {
    if ops == [] {
      CleanShaped(original);
    } else {
      RunShaped(ops[..|ops| - 1], original);
      RunKeeps(ops[..|ops| - 1], original);
      ApplyShaped(original, RunOps(ops[..|ops| - 1], original), ops[|ops| - 1]);
    }
  }

  /** In every reachable file, setting the domain with existing DNS disabled
      leaves kppp's domain line first and no other active entry but the servers
      kppp added itself. */
  lemma DomainPassDisablesAll(ops: seq<Op>, original: string, domain: string, uninit: char)
    requires Clean(original) && ProperOps(ops) && MarkFreeOps(ops) && Fits(ops, original)
    requires domain != "" && NoNewline(domain)
    requires InLimit(WithDomain(RunOps(ops, original), domain, true, uninit))
    ensures var ls := Lines(WithDomain(RunOps(ops, original), domain, true, uninit));
            && ls != [] && ls[0] == DomainLine(domain)
            && forall i | 0 < i < |ls| :: !Active(ls[i])
  {
    var s := RunOps(ops, original);
    RunKeeps(ops, original);
    RunShaped(ops, original);
    DomainPassIff(s, domain, uninit);
    EmptyLast(Lines(s));
    forall line | line in AllLines(s, uninit) && Contains(line, DISABLED) ensures !Active(line) {
      ShapedIn(Lines(s), line);
    }
  }

  lemma LineAfterPass(line: string)
    ensures Active(AddLine(line, true)) <==> Contains(line, DISABLED) && Active(line)
  {
    DisableMarks(line);
  }

  lemma {:induction false} AddLinesAt(ls: seq<string>, exDNSDisabled: bool, i: nat)
    requires i < |ls|
    ensures |AddLines(ls, exDNSDisabled)| == |ls| && AddLines(ls, exDNSDisabled)[i] == AddLine(ls[i], exDNSDisabled)
  {
    var init, last := ls[..|ls| - 1], ls[|ls| - 1];
    if i < |init| {
      AddLinesAt(init, exDNSDisabled, i);
    } else if init != [] {
      AddLinesAt(init, exDNSDisabled, 0);
    }
  }

  lemma AllLinesAreLines(s: string, uninit: char)
    ensures LineList(AllLines(s, uninit))
  {
    SplitJoin(s);
    var more := if Tail(s) != "" || (s == "" && uninit != '\n') then [Tail(s)] else [];
    assert more != [] ==> more[..0] == [] && LineList(more);
    LineListAppend(Lines(s), more);
    LineListPrefix(Lines(s) + more, |Take(Lines(s) + more)|);
  }

  /** For every file: the pass leaves no other active entry iff no active one
      carried the disabling mark before. */
  lemma DomainPassIff(s: string, domain: string, uninit: char)
    requires domain != "" && NoNewline(domain) && InLimit(WithDomain(s, domain, true, uninit))
    ensures var ls := Lines(WithDomain(s, domain, true, uninit));
            && ls != [] && ls[0] == DomainLine(domain)
            && ((forall i | 0 < i < |ls| :: !Active(ls[i]))
                <==> forall line <- AllLines(s, uninit) :: Contains(line, DISABLED) ==> !Active(line))
  {
    var all := AllLines(s, uninit);
    var edited := AddLines(all, true);
    PassLines(s, domain, true, uninit);
    var ls := [DomainLine(domain)] + edited;
    forall i | 0 < i < |ls| ensures Active(ls[i]) <==> Contains(all[i - 1], DISABLED) && Active(all[i - 1]) {
      AddLinesAt(all, true, i - 1);
      LineAfterPass(all[i - 1]);
    }
    forall i | 0 <= i < |all| ensures Active(ls[i + 1]) <==> Contains(all[i], DISABLED) && Active(all[i]) {
    }
  }

  lemma PassLines(s: string, domain: string, exDNSDisabled: bool, uninit: char)
    requires domain != "" && NoNewline(domain)
    ensures var edited := AddLines(AllLines(s, uninit), exDNSDisabled);
            |edited| == |AllLines(s, uninit)|
            && Lines(WithDomain(s, domain, exDNSDisabled, uninit)) == [DomainLine(domain)] + edited
  {
    var edited := AddLines(AllLines(s, uninit), exDNSDisabled);
    AllLinesAreLines(s, uninit);
    AddLinesClean(AllLines(s, uninit), exDNSDisabled);
    DomainIsTemp(domain);
    TempAreOurs([DomainLine(domain)]);
    OursAreLines([DomainLine(domain)]);
    LineListAppend([DomainLine(domain)], edited);
    LinesOfJoin([DomainLine(domain)] + edited);
  }

  /** For every file, both settings and every line: behind kppp's domain line the
      old line stands between `# ` and the disabling mark iff it lacks that mark
      and mentions domain, or, with existing DNS disabled, mentions nameserver
      without the temporary mark; otherwise it stands there as it was. */
  lemma PassRule(s: string, domain: string, exDNSDisabled: bool, uninit: char, i: nat)
    requires domain != "" && NoNewline(domain) && i < |AllLines(s, uninit)|
    ensures var line, ls := AllLines(s, uninit)[i], Lines(WithDomain(s, domain, exDNSDisabled, uninit));
            && |ls| == |AllLines(s, uninit)| + 1 && ls[0] == "domain " + domain + " \t\t#kppp temp entry"
            && ls[i + 1] ==
               if !Contains(line, "#entry disabled by kppp")
                  && (Contains(line, "domain")
                      || (exDNSDisabled && Contains(line, "nameserver") && !Contains(line, "#kppp temp entry")))
               then "# " + line + " \t#entry disabled by kppp" else line
  {
    var all := AllLines(s, uninit);
    PassLines(s, domain, exDNSDisabled, uninit);
    AddLinesAt(all, exDNSDisabled, i);
    assert ([DomainLine(domain)] + AddLines(all, exDNSDisabled))[i + 1] == AddLine(all[i], exDNSDisabled);
    RuleOfLine(all[i], exDNSDisabled);
    assert DomainLine(domain) == "domain " + domain + " \t\t#kppp temp entry";
  }

  lemma RuleOfLine(line: string, exDNSDisabled: bool)
    ensures AddLine(line, exDNSDisabled) ==
            if !Contains(line, "#entry disabled by kppp")
               && (Contains(line, "domain")
                   || (exDNSDisabled && Contains(line, "nameserver") && !Contains(line, "#kppp temp entry")))
            then "# " + line + " \t#entry disabled by kppp" else line
  {
    assert Disable(line) == "# " + line + " \t#entry disabled by kppp";
  }

  // ----- a peer file that does not end with a newline

  lemma AddedLineStays(line: string, exDNSDisabled: bool)
    ensures RestoreLine(AddLine(line, exDNSDisabled)) == [] <==> Contains(line, TEMP)
  {
    DisableMarks(line);
    DisableAddsNoTemp(line);
  }

  /** With a domain set, the copied rest of the peer's file becomes a line
      without a mark, which removal keeps: the round trip holds iff no domain is
      set, or there is no such rest, or it carries the mark already. */
  lemma PeerRoundTripIff(original: string, peer: string, domain: string, exDNSDisabled: bool, uninit: char)
    requires Clean(original) && NoNewline(domain)
    requires InLimit(WithPeerDns(original, peer, domain, exDNSDisabled, uninit))
    ensures WithoutDns(WithPeerDns(original, peer, domain, exDNSDisabled, uninit)) == original
        <==> domain == "" || Terminated(PeerText(peer)) || Contains(Tail(PeerText(peer)), TEMP)
  {
    if domain == "" {
      PeerAlone(original, PeerText(peer));
    } else {
      PeerTrip(original, PeerText(peer), domain, exDNSDisabled, uninit);
    }
  }

  /** Without a domain the rest stays an incomplete line, which is not read. */
  lemma PeerAlone(original: string, p: string)
    requires Clean(original) && InLimit(original + Tag(p))
    ensures WithoutDns(original + Tag(p)) == original
  {
    var s, rest := original + Join(Tagged(Lines(p))), Tail(p);
    PeerAppends(original, p);
    CleanIsUndoable(original);
    SplitJoin(p);
    AppendTemp(original, original, Tagged(Lines(p)));
    LinesAppendLine(s, rest);
  }

  lemma PeerTrip(original: string, p: string, domain: string, exDNSDisabled: bool, uninit: char)
    requires Clean(original) && domain != "" && NoNewline(domain)
    requires InLimit(WithDomain(original + Tag(p), domain, exDNSDisabled, uninit))
    ensures WithoutDns(WithDomain(original + Tag(p), domain, exDNSDisabled, uninit)) == original
        <==> Terminated(p) || Contains(Tail(p), TEMP)
  {
    var s, rest := original + Join(Tagged(Lines(p))), Tail(p);
    PeerAppends(original, p);
    CleanIsUndoable(original);
    AppendTemp(original, original, Tagged(Lines(p)));
    TailEmpty(p);
    SplitJoin(p);
    if rest == "" {
      TripBack(original, s, domain, exDNSDisabled, uninit);
    } else {
      RestTrip(original, s, rest, domain, exDNSDisabled, uninit);
    }
  }

  lemma TripBack(original: string, s: string, domain: string, exDNSDisabled: bool, uninit: char)
    requires original != "" && Undoable(original, s) && NoNewline(domain)
    requires InLimit(WithDomain(s, domain, exDNSDisabled, uninit))
    ensures WithoutDns(WithDomain(s, domain, exDNSDisabled, uninit)) == original
  {
    DomainKeeps(original, s, domain, exDNSDisabled, uninit);
  }

  lemma RestTrip(original: string, s: string, rest: string, domain: string, exDNSDisabled: bool, uninit: char)
    requires Undoable(original, s) && rest != "" && NoNewline(rest) && NoNewline(domain) && domain != ""
    requires InLimit(WithDomain(s + rest, domain, exDNSDisabled, uninit))
    ensures WithoutDns(WithDomain(s + rest, domain, exDNSDisabled, uninit)) == original <==> Contains(rest, TEMP)
  {
    var after := WithDomain(s + rest, domain, exDNSDisabled, uninit);
    RestLines(original, s, rest, domain, exDNSDisabled, uninit);
    var last := AddLine(rest, exDNSDisabled);
    var kept := Join(RestoreLine(last));
    JoinAppend(Restore(Lines(s)), RestoreLine(last));
    assert WithoutDns(after) == original + kept;
    AddedLineStays(rest, exDNSDisabled);
    if RestoreLine(last) != [] {
      assert RestoreLine(last) == [RestoreLine(last)[0]];
      JoinOne(RestoreLine(last)[0]);
    }
  }

  lemma RestLines(original: string, s: string, rest: string, domain: string, exDNSDisabled: bool, uninit: char)
    requires Undoable(original, s) && rest != "" && NoNewline(rest) && NoNewline(domain) && domain != ""
    requires InLimit(WithDomain(s + rest, domain, exDNSDisabled, uninit))
    ensures WithoutDns(WithDomain(s + rest, domain, exDNSDisabled, uninit))
         == Join(Restore(Lines(s)) + RestoreLine(AddLine(rest, exDNSDisabled)))
  {
    RestIsLine(s, rest, uninit);
    PassLines(s + rest, domain, exDNSDisabled, uninit);
    EditedRestored(Lines(s), rest, domain, exDNSDisabled);
  }

  lemma RestIsLine(s: string, rest: string, uninit: char)
    requires Tail(s) == "" && NoNewline(rest) && rest != ""
    ensures |AllLines(s + rest, uninit)| < MAX_RESOLVCONF_LINES ==> AllLines(s + rest, uninit) == Lines(s) + [rest]
  {
    LinesAppendLine(s, rest);
    SplitJoin(s);
    SnocParts(Lines(s), rest);
    var all := Lines(s) + [rest];
    assert AllLines(s + rest, uninit) == Take(all);
  }

  lemma EditedRestored(ls: seq<string>, rest: string, domain: string, exDNSDisabled: bool)
    requires AllOurs(ls) && NoNewline(domain)
    ensures Restore([DomainLine(domain)] + AddLines(ls + [rest], exDNSDisabled))
         == Restore(ls) + RestoreLine(AddLine(rest, exDNSDisabled))
  {
    var edited, last := AddLines(ls, exDNSDisabled), AddLine(rest, exDNSDisabled);
    SnocParts(ls, rest);
    assert AddLines(ls + [rest], exDNSDisabled) == edited + [last];
    AddLinesKeeps(ls, exDNSDisabled);
    DomainIsTemp(domain);
    RestoreAppend([DomainLine(domain)], edited + [last]);
    RestoreDropsTemp([DomainLine(domain)]);
    RestoreSnoc(edited, last);
    EmptyFirst(Restore(edited + [last]));
  }

  lemma {:induction false} AddLinesClean(ls: seq<string>, exDNSDisabled: bool)
    requires LineList(ls)
    ensures |AddLines(ls, exDNSDisabled)| == |ls| && LineList(AddLines(ls, exDNSDisabled))
  {
    if ls != [] {
      AddLinesClean(ls[..|ls| - 1], exDNSDisabled);
      SnocParts(AddLines(ls[..|ls| - 1], exDNSDisabled), AddLine(ls[|ls| - 1], exDNSDisabled));
    }
  }
}
