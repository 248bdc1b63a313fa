/** The rendered access file where it is enforced: nginx goes through the lines and the first one that applies to
    the client decides. */
module Enforcement {
  import opened Masks
  import opened Cidr

  /** A directive with an operand. */
  predicate Says(line: string, word: string, operand: string) {
    line == word + (" " + (operand + ";"))
  }

  /** The operand is the text of a network that holds the address. */
  ghost predicate Covers(lib: Lib, operand: string, ip: bv64) {
    exists n :: Normal(lib, n) && Show(lib, n) == operand && Contains(n, ip)
  }

  ghost predicate Applies(lib: Lib, line: string, word: string, ip: bv64) {
    Says(line, word, "all") || exists operand :: Says(line, word, operand) && Covers(lib, operand, ip)
  }

  /** Whether the client gets in; it does if no line applies to it. */
  ghost predicate Admits(lib: Lib, lines: seq<string>, ip: bv64) {
    if lines == [] then true
    else if Applies(lib, lines[0], "allow", ip) then true
    else if Applies(lib, lines[0], "deny", ip) then false
    else Admits(lib, lines[1..], ip)
  }

  lemma CoversExactly(lib: Lib, n: Network, ip: bv64)
    requires Faithful(lib) && Normal(lib, n) && ip < ADDRESSES
    ensures Covers(lib, Show(lib, n), ip) <==> Contains(n, ip)
  {
    MatchesBlock(lib, n, ip);
    forall m | Normal(lib, m) && Show(lib, m) == Show(lib, n) ensures Contains(m, ip) <==> Contains(n, ip) {
      MatchesBlock(lib, m, ip);
    }
  }

  lemma OneOperand(line: string, word: string, a: string, b: string)
    requires Says(line, word, a) && Says(line, word, b)
    ensures a == b
  {
    assert line[|word| + 1..|line| - 1] == a;
    assert line[|word| + 1..|line| - 1] == b;
  }

  lemma OtherWord(line: string, a: string, b: string, operand: string)
    requires Says(line, a, operand) && a != [] && b != [] && a[0] != b[0]
    ensures forall other :: !Says(line, b, other)
  {
    assert line[0] == a[0];
    forall other ensures !Says(line, b, other) {
      assert (b + (" " + (other + ";")))[0] == b[0];
    }
  }

  /** A line for a network lets in exactly its block, and decides nothing for the others. */
  lemma NetworkLine(lib: Lib, n: Network, ip: bv64)
    requires Faithful(lib) && Normal(lib, n) && ip < ADDRESSES && EntryText(Show(lib, n))
    ensures Applies(lib, AllowLine(Show(lib, n)), "allow", ip) <==> Contains(n, ip)
    ensures !Applies(lib, AllowLine(Show(lib, n)), "deny", ip)
  {
    var line := AllowLine(Show(lib, n));
    assert Says(line, "allow", Show(lib, n));
    OtherWord(line, "allow", "deny", Show(lib, n));
    CoversExactly(lib, n, ip);
    forall operand | Says(line, "allow", operand) ensures operand == Show(lib, n) && operand != "all" {
      OneOperand(line, "allow", operand, Show(lib, n));
      assert !EntryChar("all"[1]);
    }
  }

  lemma CommentLine(lib: Lib, text: string, ip: bv64)
    ensures !Applies(lib, "# " + text, "allow", ip) && !Applies(lib, "# " + text, "deny", ip)
  {
    assert ("# " + text)[0] == '#';
    forall operand ensures !Says("# " + text, "allow", operand) && !Says("# " + text, "deny", operand) {
      assert ("allow" + (" " + (operand + ";")))[0] == 'a';
      assert ("deny" + (" " + (operand + ";")))[0] == 'd';
    }
  }

  lemma ClosingLine(lib: Lib, ip: bv64)
    ensures !Applies(lib, "deny all;", "allow", ip) && Applies(lib, "deny all;", "deny", ip)
  {
    assert "deny all;" == "deny" + (" " + ("all" + ";"));
    OtherWord("deny all;", "deny", "allow", "all");
  }

  /** Network by network, and nobody else once the closing line is reached. */
  lemma {:induction false} NetworkLines(lib: Lib, nets: seq<Network>, ip: bv64)
    requires Faithful(lib) && AllNormal(lib, nets) && ip < ADDRESSES
    ensures Admits(lib, AllowLines(ShowAll(lib, nets)) + ["deny all;"], ip) <==> InSome(nets, ip)
    decreases |nets|
  {
    if nets == [] {
      ClosingLine(lib, ip);
      assert AllowLines([]) + ["deny all;"] == ["deny all;"];
    } else {
      var rest := AllowLines(ShowAll(lib, nets[1..])) + ["deny all;"];
      ShownAreEntries(lib, nets);
      assert ShowAll(lib, nets)[0] == Show(lib, nets[0]) && ShowAll(lib, nets)[1..] == ShowAll(lib, nets[1..]);
      NetworkLines(lib, nets[1..], ip);
      assert AllowLines(ShowAll(lib, nets)) + ["deny all;"] == [AllowLine(Show(lib, nets[0]))] + rest;
      NetworkThenRest(lib, nets[0], rest, ip);
      AnyOrFirst(nets, ip);
    }
  }

  lemma NetworkThenRest(lib: Lib, n: Network, rest: seq<string>, ip: bv64)
    requires Faithful(lib) && Normal(lib, n) && ip < ADDRESSES && EntryText(Show(lib, n))
    ensures Admits(lib, [AllowLine(Show(lib, n))] + rest, ip) <==> Contains(n, ip) || Admits(lib, rest, ip)
  {
    NetworkLine(lib, n, ip);
    assert ([AllowLine(Show(lib, n))] + rest)[1..] == rest;
  }

  lemma AfterComment(lib: Lib, text: string, lines: seq<string>, ip: bv64)
    ensures Admits(lib, ["# " + text] + lines, ip) <==> Admits(lib, lines, ip)
  {
    CommentLine(lib, text, ip);
    assert (["# " + text] + lines)[1..] == lines;
  }

  /** The lines of the rendered file. */
  lemma RenderedLines(networks: seq<string>, title: string, emptyTitle: string)
    requires forall i :: 0 <= i < |networks| ==> EntryText(networks[i])
    requires '\n' !in title && '\n' !in emptyTitle
    ensures FileLines(Rendered(networks, title, emptyTitle)) ==
      if networks == [] then ["# " + emptyTitle] else ["# " + title] + AllowLines(networks) + ["deny all;"]
  {
    CommentIsLine(title);
    CommentIsLine(emptyTitle);
    AllowLinesAreLines(networks);
    if networks == [] {
      LastLine("# " + emptyTitle);
    } else {
      FramedLines("# " + title, AllowLines(networks), "deny all;");
    }
  }

  lemma FramedLines(header: string, lines: seq<string>, footer: string)
    requires IsLine(header) && IsLine(footer) && forall i :: 0 <= i < |lines| ==> IsLine(lines[i])
    ensures FileLines(Joined([header] + lines + [footer]) + "\n") == [header] + lines + [footer]
  {
    var all := [header] + lines + [footer];
    FramedAreLines(header, lines, footer, all);
    JoinedSplits(all);
  }

  lemma FramedAreLines(header: string, lines: seq<string>, footer: string, all: seq<string>)
    requires all == [header] + lines + [footer]
    requires IsLine(header) && IsLine(footer) && forall i :: 0 <= i < |lines| ==> IsLine(lines[i])
    ensures forall i :: 0 <= i < |all| ==> IsLine(all[i])
  {
    forall i | 0 <= i < |all| ensures IsLine(all[i]) {
      assert all[i] == if i == 0 then header else if i <= |lines| then lines[i - 1] else footer;
    }
  }

  /** What is enforced is what was stored: from the rendered file nginx admits an IPv4 client if and only if the
      list is empty or its address lies in the block of some IPv4 entry. */
  lemma EnforcedAsStored(lib: Lib, nets: seq<Network>, title: string, emptyTitle: string, ip: bv64)
    requires Faithful(lib) && AllNormal(lib, nets) && ip < ADDRESSES
    requires '\n' !in title && '\n' !in emptyTitle
    ensures Admits(lib, FileLines(Rendered(ShowAll(lib, nets), title, emptyTitle)), ip)
      <==> nets == [] || InSome(nets, ip)
  {
    ShownAreEntries(lib, nets);
    RenderedLines(ShowAll(lib, nets), title, emptyTitle);
    if nets == [] {
      AfterComment(lib, emptyTitle, [], ip);
    } else {
      NetworkLines(lib, nets, ip);
      AfterComment(lib, title, AllowLines(ShowAll(lib, nets)) + ["deny all;"], ip);
      assert ["# " + title] + AllowLines(ShowAll(lib, nets)) + ["deny all;"]
          == ["# " + title] + (AllowLines(ShowAll(lib, nets)) + ["deny all;"]);
    }
  }
}
