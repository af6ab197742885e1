/** Editing /etc/resolv.conf for the duration of a connection, and undoing it
    (kppp/connect.cpp).  A file is a string of single-byte characters.

    The functions say what each operation does to the file; the class reads it
    character by character into an array of lines, as the source does. */
module ResolvConf {
  import opened Sequences
  import opened Text

  const MAX_RESOLVCONF_LINES: nat := 128

  const TEMP := "#kppp temp entry"
  const DISABLED := "#entry disabled by kppp"

  // ----- lines

  /** The newline-terminated lines of a file, in order. */
  function Lines(s: string): (r: seq<string>)
    ensures |r| <= |s|
  {
    if s == "" then []
    else if s[|s| - 1] == '\n' then Lines(s[..|s| - 1]) + [Tail(s[..|s| - 1])]
    else Lines(s[..|s| - 1])
  }

  /** What follows the last newline. */
  function Tail(s: string): (r: string) {
    if s == "" || s[|s| - 1] == '\n' then ""
    else Tail(s[..|s| - 1]) + [s[|s| - 1]]
  }

  function Join(ls: seq<string>): string {
    if ls == [] then "" else Join(ls[..|ls| - 1]) + ls[|ls| - 1] + "\n"
  }

  predicate Terminated(s: string) {
    s == "" || s[|s| - 1] == '\n'
  }

  predicate NoNewline(s: string) {
    forall i | 0 <= i < |s| :: s[i] != '\n'
  }

  function Take(ls: seq<string>): (r: seq<string>) {
    if |ls| <= MAX_RESOLVCONF_LINES then ls else ls[..MAX_RESOLVCONF_LINES]
  }

  // ----- the edits

  function Disable(line: string): string {
    "# " + line + " \t" + DISABLED
  }

  predicate Disables(line: string, exDNSDisabled: bool) {
    && (|| Contains(line, "domain")
        || (Contains(line, "nameserver") && !Contains(line, TEMP) && exDNSDisabled))
    && !Contains(line, DISABLED)
  }

  function AddLine(line: string, exDNSDisabled: bool): string {
    if Disables(line, exDNSDisabled) then Disable(line) else line
  }

  function DomainLine(domain: string): string {
    "domain " + domain + " \t\t" + TEMP
  }

  function ServerLine(server: string): string {
    "nameserver " + server + " \t" + TEMP
  }

  function AddLines(ls: seq<string>, exDNSDisabled: bool): (r: seq<string>) {
    if ls == [] then []
    else AddLines(ls[..|ls| - 1], exDNSDisabled) + [AddLine(ls[|ls| - 1], exDNSDisabled)]
  }

  function ServerLines(servers: seq<string>): seq<string> {
    if servers == [] then []
    else ServerLines(servers[..|servers| - 1]) + [ServerLine(servers[|servers| - 1])]
  }

  /** The lines `add_domain` works on: an unterminated rest counts as a line.
      `uninit` is what the uninitialised `c` holds when the file is empty. */
  function AllLines(s: string, uninit: char): seq<string> {
    Take(Lines(s) + if Tail(s) != "" || (s == "" && uninit != '\n') then [Tail(s)] else [])
  }

  function WithDomain(s: string, domain: string, exDNSDisabled: bool, uninit: char): string {
    if domain == "" then s
    else Join([DomainLine(domain)] + AddLines(AllLines(s, uninit), exDNSDisabled))
  }

  function WithDns(s: string, servers: seq<string>, domain: string, exDNSDisabled: bool, uninit: char): string {
    WithDomain(s + Join(ServerLines(servers)), domain, exDNSDisabled, uninit)
  }

  /** Only the first 100 bytes of the peer's file are copied. */
  function PeerText(peer: string): string {
    if |peer| <= 100 then peer else peer[..100]
  }

  function Tag(peer: string): string {
    if peer == "" then ""
    else Tag(peer[..|peer| - 1]) +
         (if peer[|peer| - 1] == '\n' then "\t" + TEMP + "\n" else [peer[|peer| - 1]])
  }

  function WithPeerDns(s: string, peer: string, domain: string, exDNSDisabled: bool, uninit: char): string {
    WithDomain(s + Tag(PeerText(peer)), domain, exDNSDisabled, uninit)
  }

  /** `write(fd, data + 2, length - 27)`; for a line shorter than 27 the length
      wraps around and the write fails, which leaves only the newline. */
  function Undisable(line: string): string {
    if |line| >= 27 then line[2..|line| - 25] else ""
  }

  function RestoreLine(line: string): seq<string> {
    if Contains(line, TEMP) then []
    else if Contains(line, DISABLED) then [Undisable(line)]
    else [line]
  }

  function Restore(ls: seq<string>): (r: seq<string>)
    ensures |r| <= |ls|
  {
    if ls == [] then [] else Restore(ls[..|ls| - 1]) + RestoreLine(ls[|ls| - 1])
  }

  function WithoutDns(s: string): string {
    Join(Restore(Take(Lines(s))))
  }

  // ----- the source's loops

  class ResolvFile {
    var content: string

    constructor (text: string)
      ensures content == text
    {
      content := text;
    }

    /** The character loop both readers share: lines go into a fixed array. */
    method ReadLines() returns (resolv: array<string>, i: nat, c: char)
      ensures fresh(resolv) && resolv.Length == MAX_RESOLVCONF_LINES
      ensures i <= MAX_RESOLVCONF_LINES && resolv[..i] == Take(Lines(content))
      ensures i < MAX_RESOLVCONF_LINES ==> i == |Lines(content)| && resolv[i] == Tail(content)
      ensures i < MAX_RESOLVCONF_LINES && content != "" ==> c == content[|content| - 1]
      ensures i == MAX_RESOLVCONF_LINES ==> |Lines(content)| >= MAX_RESOLVCONF_LINES
    {
      resolv := new string[MAX_RESOLVCONF_LINES](_ => "");
      i := 0;
      c := *;
      var pos := 0;
      while pos < |content| && i < MAX_RESOLVCONF_LINES
        invariant 0 <= pos <= |content| && i <= MAX_RESOLVCONF_LINES
        invariant i == |Lines(content[..pos])| && resolv[..i] == Lines(content[..pos])
        invariant i < MAX_RESOLVCONF_LINES ==> resolv[i] == Tail(content[..pos])
        invariant forall k | i < k < MAX_RESOLVCONF_LINES :: resolv[k] == ""
        invariant pos > 0 ==> c == content[pos - 1]
      {
        c := content[pos];
        assert content[..pos + 1][..pos] == content[..pos];
        if c == '\n' {
          i := i + 1;
        } else {
          resolv[i] := resolv[i] + [c];
        }
        pos := pos + 1;
      }
      assert content[..|content|] == content;
      LinesPrefix(content, pos);
    }

    /** `add_domain` counts an unterminated rest as a line too. */
    method ReadAllLines() returns (resolv: array<string>, i: nat, c: char)
      ensures fresh(resolv) && i <= resolv.Length && resolv[..i] == AllLines(content, c)
    {
      resolv, i, c := ReadLines();
      TailEmpty(content);
      ghost var lines := Lines(content);
      if c != '\n' && i < MAX_RESOLVCONF_LINES {
        i := i + 1;
        assert resolv[..i] == lines + [Tail(content)];
      } else if i < MAX_RESOLVCONF_LINES {
        assert lines + [] == lines;
      } else {
        assert (lines + [Tail(content)])[..i] == lines[..i];
      }
    }

    method AddDomain(domain: string, exDNSDisabled: bool) returns (ghost uninit: char)
      modifies this
      ensures content == WithDomain(old(content), domain, exDNSDisabled, uninit)
    {
      uninit := '\n';
      if domain == "" {
        return;
      }
      var resolv, i, c := ReadAllLines();
      uninit := c;
      var lines := resolv[..i];
      content := "";
      WriteDomain(domain);
      WriteEditedLines(lines, exDNSDisabled);
      JoinAppend([DomainLine(domain)], AddLines(lines, exDNSDisabled));
    }

    method WriteDomain(domain: string)
      modifies this
      ensures content == old(content) + Join([DomainLine(domain)])
    {
      content := content + (DomainLine(domain) + "\n");
      JoinOne(DomainLine(domain));
    }

    method WriteEditedLines(lines: seq<string>, exDNSDisabled: bool)
      modifies this
      ensures content == old(content) + Join(AddLines(lines, exDNSDisabled))
    {
      for j := 0 to |lines|
        invariant content == old(content) + Join(AddLines(lines[..j], exDNSDisabled))
      {
        WriteEdited(lines[j], exDNSDisabled);
        EditNext(lines, j, exDNSDisabled);
      }
      assert lines[..|lines|] == lines;
    }

    method WriteEdited(line: string, exDNSDisabled: bool)
      modifies this
      ensures content == old(content) + Join([AddLine(line, exDNSDisabled)])
    {
      JoinOne(AddLine(line, exDNSDisabled));
      if (Contains(line, "domain")
          || (Contains(line, "nameserver") && !Contains(line, TEMP) && exDNSDisabled))
         && !Contains(line, DISABLED)
      {
        content := content + ("# " + line + " \t" + DISABLED) + "\n";
      } else {
        content := content + line + "\n";
      }
    }

    method AddDns(servers: seq<string>, domain: string, exDNSDisabled: bool) returns (ghost uninit: char)
      modifies this
      ensures content == WithDns(old(content), servers, domain, exDNSDisabled, uninit)
    {
      for j := 0 to |servers|
        invariant content == old(content) + Join(ServerLines(servers[..j]))
      {
        content := content + (ServerLine(servers[j]) + "\n");
        assert servers[..j + 1][..j] == servers[..j];
      }
      assert servers[..|servers|] == servers;
      uninit := AddDomain(domain, exDNSDisabled);
    }

    method AddPeerDns(peer: string, domain: string, exDNSDisabled: bool) returns (ghost uninit: char)
      modifies this
      ensures content == WithPeerDns(old(content), peer, domain, exDNSDisabled, uninit)
    {
      var i := 0;
      while i < 100 && i < |peer|
        invariant 0 <= i <= 100 && i <= |peer|
        invariant content == old(content) + Tag(peer[..i])
      {
        if peer[i] == '\n' {
          content := content + "\t#kppp temp entry\n";
        } else {
          content := content + [peer[i]];
        }
        assert peer[..i + 1][..i] == peer[..i];
        i := i + 1;
      }
      assert peer[..i] == PeerText(peer);
      uninit := AddDomain(domain, exDNSDisabled);
    }

    method RemoveDns()
      modifies this
      ensures content == WithoutDns(old(content))
    {
      var resolv, i, c := ReadLines();
      content := "";
      WriteRestoredLines(resolv[..i]);
    }

    method WriteRestoredLines(lines: seq<string>)
      modifies this
      ensures content == old(content) + Join(Restore(lines))
    {
      for j := 0 to |lines|
        invariant content == old(content) + Join(Restore(lines[..j]))
      {
        RestoreNext(lines, j);
        Assoc(old(content), Join(Restore(lines[..j])), Join(RestoreLine(lines[j])));
        WriteRestored(lines[j]);
      }
      assert lines[..|lines|] == lines;
    }

    method WriteRestored(line: string)
      modifies this
      ensures content == old(content) + Join(RestoreLine(line))
    {
      if Contains(line, TEMP) {
        return;
      }
      JoinOne("");
      JoinOne(line);
      if Contains(line, DISABLED) {
        if |line| >= 27 {
          content := content + line[2..|line| - 25];
          JoinOne(line[2..|line| - 25]);
        }
        content := content + "\n";
      } else {
        content := content + line + "\n";
      }
    }
  }

  // ----- lemmas on lines

  /** Reading on never changes the lines already complete. */
  lemma {:induction false} LinesPrefix(s: string, n: nat)
    requires n <= |s|
    ensures Lines(s[..n]) <= Lines(s)
  {
    if n < |s| {
      assert s[..|s| - 1][..n] == s[..n];
      LinesPrefix(s[..|s| - 1], n);
    } else {
      assert s[..n] == s;
    }
  }

  lemma TailEmpty(s: string)
    ensures Tail(s) == "" <==> Terminated(s)
  {
  }

  lemma {:induction false} JoinAppend(a: seq<string>, b: seq<string>)
    ensures Join(a + b) == Join(a) + Join(b)
  {
    if b == [] {
      assert a + b == a;
    } else {
      var init, last := b[..|b| - 1], b[|b| - 1];
      JoinAppend(a, init);
      JoinSnoc(a + init, last);
      assert a + b == a + init + [last];
    }
  }

  lemma JoinSnoc(ls: seq<string>, line: string)
    ensures Join(ls + [line]) == Join(ls) + (line + "\n")
  {
    assert (ls + [line])[..|ls|] == ls;
  }

  lemma EditNext(ls: seq<string>, j: nat, exDNSDisabled: bool)
    requires j < |ls|
    ensures Join(AddLines(ls[..j + 1], exDNSDisabled))
         == Join(AddLines(ls[..j], exDNSDisabled)) + Join([AddLine(ls[j], exDNSDisabled)])
  {
    assert ls[..j + 1][..j] == ls[..j];
    JoinAppend(AddLines(ls[..j], exDNSDisabled), [AddLine(ls[j], exDNSDisabled)]);
  }

  lemma RestoreNext(ls: seq<string>, j: nat)
    requires j < |ls|
    ensures Join(Restore(ls[..j + 1])) == Join(Restore(ls[..j])) + Join(RestoreLine(ls[j]))
  {
    assert ls[..j + 1][..j] == ls[..j];
    JoinAppend(Restore(ls[..j]), RestoreLine(ls[j]));
  }

  lemma JoinOne(line: string)
    ensures Join([line]) == line + "\n"
  {
    assert [line][..0] == [];
  }
}
