/** What a resolver reads from the file while kppp is connected. */
module ResolvView {
  import opened Sequences
  import opened Text
  import opened ResolvConf
  import opened ResolvUndo
  import opened ResolvShape

  // ----- a resolver

  predicate Gap(c: char) {
    c == ' ' || c == '\t'
  }

  function SkipGaps(s: string): string {
    if s != "" && Gap(s[0]) then SkipGaps(s[1..]) else s
  }

  function Word(s: string): string {
    if s == "" || Gap(s[0]) then "" else [s[0]] + Word(s[1..])
  }

  /** The keyword comes first in the line, and a gap behind it. */
  predicate Keyed(line: string, key: string) {
    |line| > |key| && line[..|key|] == key && Gap(line[|key|])
  }

  /** The values of the lines that begin with the keyword, in order. */
  function Values(ls: seq<string>, key: string): seq<string> {
    if ls == [] then []
    else Values(ls[..|ls| - 1], key) + ValueOf(ls[|ls| - 1], key)
  }

  function ValueOf(line: string, key: string): seq<string> {
    if Keyed(line, key) then [Word(SkipGaps(line[|key|..]))] else []
  }

  // ----- the lines kppp writes

  predicate IsWord(s: string) {
    s != "" && forall i | 0 <= i < |s| :: !Gap(s[i]) && s[i] != '\n'
  }

  lemma {:induction false} WordEnds(s: string, rest: string)
    requires (forall i | 0 <= i < |s| :: !Gap(s[i])) && rest != "" && Gap(rest[0])
    ensures Word(s + rest) == s
  {
    if s == "" {
      assert s + rest == rest;
    } else {
      WordEnds(s[1..], rest);
      assert (s + rest)[1..] == s[1..] + rest;
    }
  }

  lemma ValueReads(key: string, word: string, rest: string)
    requires IsWord(word) && rest != "" && Gap(rest[0])
    ensures ValueOf(key + " " + word + rest, key) == [word]
  {
    var line := key + " " + word + rest;
    assert line[|key|..] == " " + (word + rest);
    assert (" " + (word + rest))[1..] == word + rest;
    assert SkipGaps(line[|key|..]) == SkipGaps(word + rest) == word + rest;
    WordEnds(word, rest);
  }

  lemma KeyedContains(line: string, key: string)
    requires Keyed(line, key)
    ensures Contains(line, key)
  {
    assert MatchAt(line, 0, key);
    ContainsAt(line, key, 0);
  }

  lemma OtherKey(line: string, key: string)
    requires line != "" && key != "" && line[0] != key[0]
    ensures ValueOf(line, key) == []
  {
    if |line| > |key| {
      assert line[..|key|][0] == line[0];
    }
  }

  lemma DomainValue(domain: string)
    requires IsWord(domain)
    ensures ValueOf(DomainLine(domain), "domain") == [domain] && ValueOf(DomainLine(domain), "nameserver") == []
  {
    assert DomainLine(domain) == "domain" + " " + domain + (" \t\t" + TEMP);
    ValueReads("domain", domain, " \t\t" + TEMP);
    OtherKey(DomainLine(domain), "nameserver");
  }

  lemma ValuesSnoc(ls: seq<string>, line: string, key: string)
    ensures Values(ls + [line], key) == Values(ls, key) + ValueOf(line, key)
  {
    assert (ls + [line])[..|ls|] == ls;
  }

  lemma {:induction false} ValuesAppend(a: seq<string>, b: seq<string>, key: string)
    ensures Values(a + b, key) == Values(a, key) + Values(b, key)
  {
    if b == [] {
      EmptyLast(a);
      EmptyLast(Values(a, key));
    } else {
      var init, line := b[..|b| - 1], b[|b| - 1];
      LastApart(a, b);
      ValuesAppend(a, init, key);
      ValuesSnoc(a + init, line, key);
      Assoc(Values(a, key), Values(init, key), ValueOf(line, key));
    }
  }

  lemma CommentHasNoValue(line: string, key: string)
    requires key != "" && key[0] != '#'
    ensures ValueOf(Disable(line), key) == []
  {
    OtherKey(Disable(line), key);
  }

  // ----- the file of before

  /** The lines of before that stay in force. */
  function Remaining(ls: seq<string>, exDNSDisabled: bool): seq<string> {
    if exDNSDisabled then []
    else if ls == [] then []
    else Remaining(ls[..|ls| - 1], false) + if Contains(ls[|ls| - 1], "domain") then [] else [ls[|ls| - 1]]
  }

  lemma EditedValue(line: string, exDNSDisabled: bool)
    requires !Contains(line, TEMP) && !Contains(line, DISABLED)
    ensures ValueOf(AddLine(line, exDNSDisabled), "domain") == []
    ensures ValueOf(AddLine(line, exDNSDisabled), "nameserver")
         == if exDNSDisabled || Contains(line, "domain") then [] else ValueOf(line, "nameserver")
  {
    CommentHasNoValue(line, "domain");
    CommentHasNoValue(line, "nameserver");
    if Keyed(line, "domain") {
      KeyedContains(line, "domain");
    }
    if Keyed(line, "nameserver") {
      KeyedContains(line, "nameserver");
    }
  }

  lemma {:induction false} EditedValues(ls: seq<string>, exDNSDisabled: bool)
    requires AllUnmarked(ls)
    ensures Values(AddLines(ls, exDNSDisabled), "domain") == []
    ensures Values(AddLines(ls, exDNSDisabled), "nameserver") == Values(Remaining(ls, exDNSDisabled), "nameserver")
  {
    if ls != [] {
      var init, line := ls[..|ls| - 1], ls[|ls| - 1];
      EditedValues(init, exDNSDisabled);
      EditedValue(line, exDNSDisabled);
      ValuesSnoc(AddLines(init, exDNSDisabled), AddLine(line, exDNSDisabled), "domain");
      ValuesSnoc(AddLines(init, exDNSDisabled), AddLine(line, exDNSDisabled), "nameserver");
      if !exDNSDisabled && !Contains(line, "domain") {
        ValuesSnoc(Remaining(init, false), line, "nameserver");
      } else {
        EmptyLast(Remaining(init, exDNSDisabled));
      }
    }
  }

  // ----- the servers kppp adds

  function Entries(servers: seq<string>): seq<string> {
    if servers == [] then [] else Entries(servers[..|servers| - 1]) + ["nameserver " + servers[|servers| - 1]]
  }

  /** The lines name the servers, each with `gap` and the temporary mark behind. */
  ghost predicate Names(ls: seq<string>, servers: seq<string>, gap: string) {
    |ls| == |servers|
    && forall i | 0 <= i < |ls| :: ls[i] == "nameserver " + servers[i] + gap + TEMP
  }

  ghost predicate GoodServer(server: string, gap: string) {
    IsWord(server) && !Contains("nameserver " + server + gap + TEMP, "domain")
  }

  lemma ServerValue(server: string, gap: string)
    requires GoodServer(server, gap) && gap != "" && Gap(gap[0])
    ensures var line := "nameserver " + server + gap + TEMP;
            ValueOf(line, "nameserver") == [server] && ValueOf(line, "domain") == []
  {
    var line := "nameserver " + server + gap + TEMP;
    assert line == "nameserver" + " " + server + (gap + TEMP);
    ValueReads("nameserver", server, gap + TEMP);
    OtherKey(line, "domain");
  }

  lemma ServerKept(server: string, gap: string, exDNSDisabled: bool)
    requires GoodServer(server, gap)
    ensures var line := "nameserver " + server + gap + TEMP; AddLine(line, exDNSDisabled) == line
  {
    var line := "nameserver " + server + gap + TEMP;
    ContainsAt(line, TEMP, |"nameserver " + server + gap|);
  }

  /** The pass leaves them alone, and a resolver reads the servers. */
  lemma {:induction false} NamesSeen(ls: seq<string>, servers: seq<string>, gap: string, exDNSDisabled: bool)
    requires Names(ls, servers, gap) && gap != "" && Gap(gap[0])
    requires forall i | 0 <= i < |servers| :: GoodServer(servers[i], gap)
    ensures AddLines(ls, exDNSDisabled) == ls
    ensures Values(ls, "nameserver") == servers && Values(ls, "domain") == []
  {
    if ls != [] {
      var n := |ls| - 1;
      NamesSeen(ls[..n], servers[..n], gap, exDNSDisabled);
      assert GoodServer(servers[n], gap);
      ServerKept(servers[n], gap, exDNSDisabled);
      ServerValue(servers[n], gap);
      InitLast(ls);
      InitLast(servers);
    }
  }

  lemma {:induction false} AddLinesAppend(a: seq<string>, b: seq<string>, exDNSDisabled: bool)
    ensures AddLines(a + b, exDNSDisabled) == AddLines(a, exDNSDisabled) + AddLines(b, exDNSDisabled)
  {
    if b == [] {
      assert a + b == a;
    } else {
      AddLinesAppend(a, b[..|b| - 1], exDNSDisabled);
      assert (a + b)[..|a + b| - 1] == a + b[..|b| - 1];
    }
  }

  /** The resolver sees the domain, and the servers that `remaining` and then
      `servers` name. */
  ghost predicate Sees(file: string, domain: string, remaining: seq<string>, servers: seq<string>) {
    && Values(Lines(file), "domain") == [domain]
    && Values(Lines(file), "nameserver") == Values(remaining, "nameserver") + servers
  }

  lemma AddedSeen(original: string, added: seq<string>, servers: seq<string>, gap: string, domain: string,
                  exDNSDisabled: bool, uninit: char)
    requires Clean(original) && AllTemp(added) && Names(added, servers, gap) && gap != "" && Gap(gap[0])
    requires IsWord(domain) && forall i | 0 <= i < |servers| :: GoodServer(servers[i], gap)
    requires |Lines(original)| + |added| <= 128
    ensures Sees(WithDomain(original + Join(added), domain, exDNSDisabled, uninit), domain,
                 Remaining(Lines(original), exDNSDisabled), servers)
  {
    var before := AddLines(Lines(original), exDNSDisabled);
    CleanLines(original);
    FileLines(original, added, domain, exDNSDisabled, uninit);
    AddLinesAppend(Lines(original), added, exDNSDisabled);
    NamesSeen(added, servers, gap, exDNSDisabled);
    EditedValues(Lines(original), exDNSDisabled);
    DomainValue(domain);
    AllValues(domain, before, added, "domain");
    AllValues(domain, before, added, "nameserver");
  }

  lemma AllValues(domain: string, a: seq<string>, b: seq<string>, key: string)
    ensures Values([DomainLine(domain)] + (a + b), key)
         == ValueOf(DomainLine(domain), key) + (Values(a, key) + Values(b, key))
  {
    ValuesAppend(a, b, key);
    ValuesAppend([DomainLine(domain)], a + b, key);
    EmptyFirst([DomainLine(domain)]);
    ValuesSnoc([], DomainLine(domain), key);
  }

  lemma FileLines(original: string, added: seq<string>, domain: string, exDNSDisabled: bool, uninit: char)
    requires Clean(original) && AllTemp(added) && domain != "" && NoNewline(domain)
    requires |Lines(original)| + |added| <= 128
    ensures Lines(WithDomain(original + Join(added), domain, exDNSDisabled, uninit))
         == [DomainLine(domain)] + AddLines(Lines(original) + added, exDNSDisabled)
  {
    TailEmpty(original);
    TempAreOurs(added);
    OursAreLines(added);
    LinesOfAppended(original, added);
    NothingMore(Lines(original) + added);
    PassLines(original + Join(added), domain, exDNSDisabled, uninit);
  }

  lemma {:induction false} ServerLinesName(servers: seq<string>)
    requires forall i | 0 <= i < |servers| :: IsWord(servers[i])
    ensures Names(ServerLines(servers), servers, " \t") && AllTemp(ServerLines(servers))
  {
    if servers != [] {
      var n := |servers| - 1;
      ServerLinesName(servers[..n]);
      TempLines("", servers[n], "");
      SnocParts(ServerLines(servers[..n]), ServerLine(servers[n]));
    }
  }

  lemma {:induction false} TaggedName(servers: seq<string>)
    requires forall i | 0 <= i < |servers| :: IsWord(servers[i])
    ensures Names(Tagged(Entries(servers)), servers, "\t")
    ensures LineList(Entries(servers)) && AllTemp(Tagged(Entries(servers)))
  {
    if servers != [] {
      var n := |servers| - 1;
      TaggedName(servers[..n]);
      SnocParts(Entries(servers[..n]), "nameserver " + servers[n]);
      TempLines("", "", "nameserver " + servers[n]);
      SnocParts(Tagged(Entries(servers[..n])), "nameserver " + servers[n] + "\t" + TEMP);
    }
  }

  /** While connected, a resolver sees kppp's domain and no other, and kppp's
      servers in their order: with existing DNS disabled only those, otherwise
      behind the ones of the old lines that do not mention domain. */
  lemma ResolverSees(original: string, servers: seq<string>, domain: string, exDNSDisabled: bool, uninit: char)
    requires Clean(original) && IsWord(domain) && forall i | 0 <= i < |servers| :: GoodServer(servers[i], " \t")
    requires |Lines(original)| + |servers| <= 128
    ensures Sees(WithDns(original, servers, domain, exDNSDisabled, uninit), domain,
                 Remaining(Lines(original), exDNSDisabled), servers)
  {
    assert forall i | 0 <= i < |servers| :: GoodServer(servers[i], " \t") ==> IsWord(servers[i]);
    ServerLinesName(servers);
    AddedSeen(original, ServerLines(servers), servers, " \t", domain, exDNSDisabled, uninit);
  }

  /** The same for the servers that pppd has written into its file, if that is
      not too long. */
  lemma ResolverSeesPeers(original: string, servers: seq<string>, domain: string, exDNSDisabled: bool, uninit: char)
    requires Clean(original) && IsWord(domain) && forall i | 0 <= i < |servers| :: GoodServer(servers[i], "\t")
    requires |Lines(original)| + |servers| <= 128 && |Join(Entries(servers))| <= 100
    ensures Sees(WithPeerDns(original, Join(Entries(servers)), domain, exDNSDisabled, uninit), domain,
                 Remaining(Lines(original), exDNSDisabled), servers)
  {
    assert forall i | 0 <= i < |servers| :: GoodServer(servers[i], "\t") ==> IsWord(servers[i]);
    TaggedName(servers);
    LinesOfJoin(Entries(servers));
    TagLines(Join(Entries(servers)));
    EmptyLast(Join(Tagged(Entries(servers))));
    AddedSeen(original, Tagged(Entries(servers)), servers, "\t", domain, exDNSDisabled, uninit);
  }
}
