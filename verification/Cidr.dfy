/** Access zones: the list VM1 renders for nginx, and the same list read back by the webmail plugin. */
module Cidr {
  import opened Wrappers
  import opened Texts
  import opened Masks

  // --- Prefix lengths ------------------------------------------------------------------

  lemma PrefixLength(bits: int)
    requires 0 <= bits <= 32
    ensures (bits as bv64) <= 32 && (bits >= 1 ==> 1 <= (bits as bv64)) && (bits == 0 ==> (bits as bv64) == 0)
    ensures bits == 32 ==> (bits as bv64) == 32
  {
    assert
      || bits == 0 || bits == 1 || bits == 2 || bits == 3 || bits == 4 || bits == 5 || bits == 6 || bits == 7
      || bits == 8 || bits == 9 || bits == 10 || bits == 11 || bits == 12 || bits == 13 || bits == 14 || bits == 15
      || bits == 16 || bits == 17 || bits == 18 || bits == 19 || bits == 20 || bits == 21 || bits == 22 || bits == 23
      || bits == 24 || bits == 25 || bits == 26 || bits == 27 || bits == 28 || bits == 29 || bits == 30 || bits == 31
      || bits == 32;
  }

  function BitsOf(bits: int): (b: bv64)
    requires 0 <= bits <= 32
    ensures b <= 32 && (bits >= 1 ==> 1 <= b) && (bits == 0 ==> b == 0) && (bits == 32 ==> b == 32)
  {
    PrefixLength(bits);
    bits as bv64
  }

  predicate HostBitsClear(base: bv64, bits: int)
    requires 0 <= bits <= 32
  {
    if bits == 0 then base == 0 else base & Mask(BitsOf(bits)) == base
  }

  // --- Matching one entry ------------------------------------------------------------------

  /** Library conversions: dotted quads both ways, decimal numbers both ways. */
  datatype Lib = Lib(ip2long: string -> Option<bv64>, dotted: bv64 -> string, toInt: string -> int,
    decimal: int -> string)

  /** None stands for the error a negative shift raises. */
  function MatchNumbers(ip: Option<bv64>, subnet: Option<bv64>, bits: int): Option<bool> {
    if ip.None? || subnet.None? then Some(false)
    else if bits <= 0 then Some(true)
    else if bits > 32 then None
    else Some(SameUnderMask(ip.value, subnet.value, BitsOf(bits)))
  }

  function Suffix(entry: string): string {
    var subnet := Before(entry, '/');
    if |subnet| < |entry| then entry[|subnet| + 1..] else "32"
  }

  function CidrMatch(lib: Lib, ip: string, entry: string): Option<bool> {
    MatchNumbers(lib.ip2long(ip), lib.ip2long(Before(entry, '/')), lib.toInt(Suffix(entry)))
  }

  /** A network as stored: an IPv4 one with its host bits cleared, or the text of an IPv6 one. */
  datatype Network = V4(base: bv64, bits: int) | V6(text: string)

  function Show(lib: Lib, n: Network): string {
    match n
    case V4(base, bits) => lib.dotted(base) + "/" + lib.decimal(bits)
    case V6(text) => text
  }

  /** What is asked of the library: printed values read back, and dotted quads hold no slash. */
  ghost predicate Faithful(lib: Lib) {
    && (forall x: bv64 :: x < ADDRESSES ==>
          && lib.ip2long(lib.dotted(x)) == Some(x)
          && lib.dotted(x) != "" && MadeOf(lib.dotted(x), "0123456789."))
    && (forall n :: 0 <= n <= 32 ==> lib.toInt(lib.decimal(n)) == n && MadeOf(lib.decimal(n), "0123456789"))
  }

  predicate MadeOf(s: string, chars: string) {
    forall i :: 0 <= i < |s| ==> s[i] in chars
  }

  const ENTRY_CHARS := "0123456789abcdefABCDEF:./"

  /** The six characters that a blank of the pattern stands for. */
  const BLANKS := " \t\n\U{0B}\U{0C}\r"

  predicate Normal(lib: Lib, n: Network) {
    match n
    case V4(base, bits) =>
      base < ADDRESSES && 0 <= bits <= 32 && HostBitsClear(base, bits)
    case V6(text) => text != "" && MadeOf(text, ENTRY_CHARS) && lib.ip2long(Before(text, '/')).None?
  }

  predicate Contains(n: Network, ip: bv64)
    requires n.V4? ==> 0 <= n.bits <= 32
  {
    n.V4? && InBlock(ip, n.base, BitsOf(n.bits))
  }

  lemma ShownParts(address: string, bits: string)
    requires '/' !in address
    ensures Before(address + "/" + bits, '/') == address && Suffix(address + "/" + bits) == bits
  {
    BeforeFirst(address, '/', bits);
    assert (address + "/" + bits)[|address| + 1..] == bits;
  }

  lemma NumbersMatchBlock(ip: bv64, base: bv64, bits: int)
    requires ip < ADDRESSES && base < ADDRESSES && 0 <= bits <= 32 && HostBitsClear(base, bits)
    ensures MatchNumbers(Some(ip), Some(base), bits).Some?
    ensures MatchNumbers(Some(ip), Some(base), bits).value <==> InBlock(ip, base, BitsOf(bits))
  {
    if bits == 0 {
      WholeSpace(ip);
    } else {
      SameUnderMaskIsBlock(ip, base, BitsOf(bits));
    }
  }

  /** The plugin's test of one stored entry is membership in its block. */
  lemma MatchesBlock(lib: Lib, n: Network, ip: bv64)
    requires Faithful(lib) && Normal(lib, n) && ip < ADDRESSES
    ensures CidrMatch(lib, lib.dotted(ip), Show(lib, n)) == Some(Contains(n, ip))
  {
    assert lib.ip2long(lib.dotted(ip)) == Some(ip);
    if n.V4? {
      ShownParts(lib.dotted(n.base), lib.decimal(n.bits));
      NumbersMatchBlock(ip, n.base, n.bits);
    }
  }

  /** An entry without a prefix length stands for the block of length 32; a length that is not positive matches
      everything, and one above 32 raises. */
  lemma OddEntries(lib: Lib, ip: bv64, base: bv64, bits: string)
    requires Faithful(lib) && ip < ADDRESSES && base < ADDRESSES
    ensures lib.toInt("32") == 32 ==>
      CidrMatch(lib, lib.dotted(ip), lib.dotted(base)) == Some(InBlock(ip, base, BitsOf(32)))
    ensures lib.toInt(bits) <= 0 ==> CidrMatch(lib, lib.dotted(ip), lib.dotted(base) + "/" + bits) == Some(true)
    ensures lib.toInt(bits) > 32 ==> CidrMatch(lib, lib.dotted(ip), lib.dotted(base) + "/" + bits) == None
  {
    DottedReadsBack(lib, ip);
    DottedReadsBack(lib, base);
    NoSlash(lib.dotted(base));
    ShownParts(lib.dotted(base), bits);
    SingleAddress(ip, base);
  }

  lemma DottedReadsBack(lib: Lib, x: bv64)
    requires Faithful(lib) && x < ADDRESSES
    ensures lib.ip2long(lib.dotted(x)) == Some(x) && MadeOf(lib.dotted(x), "0123456789.") && '/' !in lib.dotted(x)
  {
    assert forall i :: 0 <= i < |lib.dotted(x)| ==> lib.dotted(x)[i] in "0123456789.";
  }

  lemma SingleAddress(ip: bv64, base: bv64)
    requires ip < ADDRESSES && base < ADDRESSES
    ensures MatchNumbers(Some(ip), Some(base), 32) == Some(InBlock(ip, base, BitsOf(32)))
  {
    NothingMaskedOff(base, BitsOf(32));
    NumbersMatchBlock(ip, base, 32);
  }

  lemma NoSlash(address: string)
    requires MadeOf(address, "0123456789.")
    ensures Before(address, '/') == address && Suffix(address) == "32"
  {
    assert '/' !in address by {
      assert forall i :: 0 <= i < |address| ==> address[i] in "0123456789.";
    }
    NotFound(address, '/');
  }

  lemma {:induction false} NotFound(s: string, c: char)
    requires c !in s
    ensures Before(s, c) == s
    decreases |s|
  {
    if s != [] {
      NotFound(s[1..], c);
    }
  }

  // --- Rendering and reading back --------------------------------------------------------------

  /** The characters the plugin's pattern takes for an entry. */
  predicate EntryChar(c: char) {
    '0' <= c <= '9' || 'a' <= c <= 'f' || 'A' <= c <= 'F' || c == ':' || c == '.' || c == '/'
  }

  predicate AllEntryChars(s: string) {
    forall i :: 0 <= i < |s| ==> EntryChar(s[i])
  }

  /** Blank, tab, newline, vertical tab, form feed, carriage return. */
  predicate Space(c: char) {
    c == ' ' || '\t' <= c <= '\r'
  }

  predicate AllSpaces(s: string) {
    forall i :: 0 <= i < |s| ==> Space(s[i])
  }

  lemma EntryCharsAre(s: string)
    ensures AllEntryChars(s) <==> MadeOf(s, ENTRY_CHARS)
  {
    forall c: char ensures EntryChar(c) <==> c in ENTRY_CHARS {
      OneEntryChar(c);
    }
  }

  lemma OneEntryChar(c: char)
    ensures EntryChar(c) <==> c in ENTRY_CHARS
  {
  }

  lemma SpacesAre(s: string)
    ensures AllSpaces(s) <==> MadeOf(s, BLANKS)
  {
    assert forall c: char :: Space(c) <==> c in BLANKS;
  }

  function RunOf(class_: char -> bool, s: string): (n: nat)
    ensures n <= |s| && (forall i :: 0 <= i < n ==> class_(s[i])) && (n < |s| ==> !class_(s[n]))
  {
    if s == [] || !class_(s[0]) then 0 else 1 + RunOf(class_, s[1..])
  }

  function Trimmed(s: string): string {
    s[RunOf(Space, s)..]
  }

  const ALLOW := "allow"

  /** What the plugin's pattern captures on a line, if it matches. */
  function Capture(line: string): Option<string> {
    var a := Trimmed(line);
    if ALLOW <= a then CaptureAfterAllow(a[5..]) else None
  }

  function CaptureAfterAllow(x: string): Option<string> {
    var b := Trimmed(x);
    var n := RunOf(EntryChar, b);
    if |b| < |x| && n > 0 then
      var c := Trimmed(b[n..]);
      if c != [] && c[0] == ';' then Some(b[..n]) else None
    else None
  }

  /** The same pattern as a language: spaces, `allow`, spaces, an entry, spaces, a semicolon, anything. */
  ghost predicate Captures(line: string, entry: string, s1: string, s2: string, s3: string, rest: string) {
    && MadeOf(s1, BLANKS) && MadeOf(s2, BLANKS) && s2 != [] && MadeOf(s3, BLANKS)
    && entry != [] && MadeOf(entry, ENTRY_CHARS)
    && line == s1 + (ALLOW + (s2 + (entry + (s3 + (";" + rest)))))
  }

  lemma {:induction false} RunIs(class_: char -> bool, a: string, b: string)
    requires forall i :: 0 <= i < |a| ==> class_(a[i])
    requires b == [] || !class_(b[0])
    ensures RunOf(class_, a + b) == |a|
    decreases |a|
  {
    if a == [] {
      assert a + b == b;
    } else {
      RunIs(class_, a[1..], b);
      assert (a + b)[1..] == a[1..] + b;
    }
  }

  lemma TrimmedIs(spaces: string, b: string)
    requires AllSpaces(spaces) && b != [] && !Space(b[0])
    ensures Trimmed(spaces + b) == b
  {
    RunIs(Space, spaces, b);
    assert (spaces + b)[|spaces|..] == b;
  }

  lemma CapturesFound(line: string, entry: string, s1: string, s2: string, s3: string, rest: string)
    requires Captures(line, entry, s1, s2, s3, rest)
    ensures Capture(line) == Some(entry)
  {
    var tail := s3 + (";" + rest);
    var b := entry + tail;
    var a := ALLOW + (s2 + b);
    SpacesAre(s1);
    SpacesAre(s2);
    SpacesAre(s3);
    EntryCharsAre(entry);
    TrimmedIs(s3, ";" + rest);
    EntryThenTail(entry, s3, ";" + rest);
    TrimmedIs(s2, b);
    Halves(a, 5);
    assert a[5..] == s2 + b;
    TrimmedIs(s1, a);
  }

  lemma EntryThenTail(entry: string, s3: string, rest: string)
    requires entry != [] && AllEntryChars(entry) && AllSpaces(s3) && rest != [] && rest[0] == ';'
    ensures var b := entry + (s3 + rest);
      && !Space(b[0]) && RunOf(EntryChar, b) == |entry| && b[|entry|..] == s3 + rest && b[..|entry|] == entry
  {
    var tail := s3 + rest;
    assert tail[0] == if s3 == [] then ';' else s3[0];
    RunIs(EntryChar, entry, tail);
    assert (entry + tail)[0] == entry[0];
  }

  function Blanks(s: string): string {
    s[..RunOf(Space, s)]
  }

  lemma TrimSplits(s: string)
    ensures s == Blanks(s) + Trimmed(s) && AllSpaces(Blanks(s))
  {
  }

  lemma FoundAfterAllow(x: string) returns (s2: string, s3: string, rest: string)
    requires CaptureAfterAllow(x).Some?
    ensures var entry := CaptureAfterAllow(x).value;
      && AllSpaces(s2) && s2 != [] && AllSpaces(s3) && entry != [] && AllEntryChars(entry)
      && x == s2 + (entry + (s3 + (";" + rest)))
  {
    var b := Trimmed(x);
    var n := RunOf(EntryChar, b);
    var c := Trimmed(b[n..]);
    s2, s3, rest := Blanks(x), Blanks(b[n..]), c[1..];
    TrimSplits(x);
    TrimSplits(b[n..]);
    HeadAndTail(c, ';');
    Halves(b, n);
  }

  lemma PrefixSplit(p: string, s: string)
    requires p <= s
    ensures s == p + s[|p|..]
  {
  }

  lemma HeadAndTail(s: string, c: char)
    requires s != [] && s[0] == c
    ensures s == [c] + s[1..]
  {
  }

  lemma Halves(s: string, n: nat)
    requires n <= |s|
    ensures s == s[..n] + s[n..]
  {
  }

  /** Matching by hand is matching the pattern, and the pattern is unambiguous. */
  lemma {:induction false} CaptureIsThePattern(line: string, entry: string)
    ensures Capture(line) == Some(entry) <==> exists s1, s2, s3, rest :: Captures(line, entry, s1, s2, s3, rest)
  {
    if Capture(line) == Some(entry) {
      var a := Trimmed(line);
      var s1 := Blanks(line);
      TrimSplits(line);
      PrefixSplit(ALLOW, a);
      var s2, s3, rest := FoundAfterAllow(a[5..]);
      SpacesAre(s1);
      SpacesAre(s2);
      SpacesAre(s3);
      EntryCharsAre(entry);
      assert Captures(line, entry, s1, s2, s3, rest);
    } else {
      forall s1, s2, s3, rest ensures !Captures(line, entry, s1, s2, s3, rest) {
        if Captures(line, entry, s1, s2, s3, rest) {
          CapturesFound(line, entry, s1, s2, s3, rest);
        }
      }
    }
  }

  // --- The include file ----------------------------------------------------------------------

  function Joined(lines: seq<string>): string
    requires lines != []
  {
    if |lines| == 1 then lines[0] else lines[0] + "\n" + Joined(lines[1..])
  }

  function AllowLine(network: string): string {
    ALLOW + (" " + (network + ";"))
  }

  function AllowLines(networks: seq<string>): seq<string> {
    if networks == [] then [] else [AllowLine(networks[0])] + AllowLines(networks[1..])
  }

  method RenderInclude(networks: seq<string>, title: string, emptyTitle: string) returns (text: string)
    ensures text == Rendered(networks, title, emptyTitle)
  {
    if networks == [] {
      return "# " + emptyTitle + "\n";
    }
    var lines := ["# " + title];
    for i := 0 to |networks|
      invariant ["# " + title] + AllowLines(networks) == lines + AllowLines(networks[i..])
    {
      AllowLinesFrom(networks, i);
      assert lines + ([AllowLine(networks[i])] + AllowLines(networks[i + 1..]))
          == lines + [AllowLine(networks[i])] + AllowLines(networks[i + 1..]);
      lines := lines + [AllowLine(networks[i])];
    }
    assert lines + AllowLines([]) == lines;
    lines := lines + ["deny all;"];
    return Joined(lines) + "\n";
  }

  lemma AllowLinesFrom(networks: seq<string>, i: nat)
    requires i < |networks|
    ensures AllowLines(networks[i..]) == [AllowLine(networks[i])] + AllowLines(networks[i + 1..])
  {
  }

  /** `title` and `emptyTitle`: the label with the rest of the comment, for a restricted and an open zone. */
  function Rendered(networks: seq<string>, title: string, emptyTitle: string): string {
    if networks == [] then "# " + emptyTitle + "\n"
    else Joined(["# " + title] + AllowLines(networks) + ["deny all;"]) + "\n"
  }

  /** The lines of a file, without their newlines; empty lines are skipped. */
  function FileLines(text: string): seq<string>
    decreases |text|
  {
    if text == [] then []
    else
      var line := Before(text, '\n');
      (if line == [] then [] else [line]) + FileLines(if |line| < |text| then text[|line| + 1..] else [])
  }

  /** What `f` finds on the lines, in order. */
  function Collect(f: string -> Option<string>, lines: seq<string>): seq<string> {
    if lines == [] then []
    else (if f(lines[0]).Some? then [f(lines[0]).value] else []) + Collect(f, lines[1..])
  }

  function Captured(lines: seq<string>): seq<string> {
    Collect(Capture, lines)
  }

  predicate IsLine(s: string) {
    s != [] && '\n' !in s
  }

  lemma OneLine(line: string, rest: string)
    requires IsLine(line)
    ensures FileLines(line + "\n" + rest) == [line] + FileLines(rest)
  {
    var text := line + "\n" + rest;
    BeforeFirst(line, '\n', rest);
    assert text[|line| + 1..] == rest;
  }

  lemma LastLine(line: string)
    requires IsLine(line)
    ensures FileLines(line + "\n") == [line]
  {
    OneLine(line, "");
    assert line + "\n" + "" == line + "\n";
  }

  lemma LineAndMore(line: string, more: string)
    requires IsLine(line)
    ensures FileLines(line + "\n" + more + "\n") == [line] + FileLines(more + "\n")
  {
    OneLine(line, more + "\n");
    assert line + "\n" + more + "\n" == line + "\n" + (more + "\n");
  }

  lemma {:induction false} JoinedSplits(lines: seq<string>)
    requires lines != [] && forall i :: 0 <= i < |lines| ==> IsLine(lines[i])
    ensures FileLines(Joined(lines) + "\n") == lines
    decreases |lines|
  {
    if |lines| == 1 {
      LastLine(lines[0]);
    } else {
      JoinedSplits(lines[1..]);
      LineAndMore(lines[0], Joined(lines[1..]));
    }
  }

  predicate EntryText(s: string) {
    s != [] && AllEntryChars(s)
  }

  lemma {:induction false} AllowLineCaptured(network: string)
    requires EntryText(network)
    ensures Capture(AllowLine(network)) == Some(network)
  {
    var line := AllowLine(network);
    assert "" + (";" + "") == ";";
    assert "" + line == line;
    EntryCharsAre(network);
    CapturesFound(line, network, "", " ", "", "");
  }

  lemma AllowLineIsLine(network: string)
    requires EntryText(network)
    ensures IsLine(AllowLine(network))
  {
  }

  lemma {:induction false} AllowLinesAreLines(networks: seq<string>)
    requires forall i :: 0 <= i < |networks| ==> EntryText(networks[i])
    ensures forall i :: 0 <= i < |AllowLines(networks)| ==> IsLine(AllowLines(networks)[i])
    decreases |networks|
  {
    if networks != [] {
      AllowLineIsLine(networks[0]);
      AllowLinesAreLines(networks[1..]);
    }
  }

  lemma CollectCons(f: string -> Option<string>, line: string, rest: seq<string>)
    ensures Collect(f, [line] + rest) == if f(line).Some? then [f(line).value] + Collect(f, rest) else Collect(f, rest)
  {
  }

  ghost predicate FoundOnEach(f: string -> Option<string>, lines: seq<string>, entries: seq<string>) {
    |lines| == |entries| && forall i :: 0 <= i < |lines| ==> f(lines[i]) == Some(entries[i])
  }

  lemma {:induction false} CollectEach(f: string -> Option<string>, lines: seq<string>, entries: seq<string>,
                                       after: seq<string>)
    requires FoundOnEach(f, lines, entries)
    ensures Collect(f, lines + after) == entries + Collect(f, after)
    decreases |lines|
  {
    if lines == [] {
      assert lines + after == after;
      assert entries + Collect(f, after) == Collect(f, after);
    } else {
      CollectEach(f, lines[1..], entries[1..], after);
      CollectCons(f, lines[0], lines[1..] + after);
      assert lines + after == [lines[0]] + (lines[1..] + after);
      assert entries + Collect(f, after) == [entries[0]] + (entries[1..] + Collect(f, after));
    }
  }

  lemma FoundOnCons(f: string -> Option<string>, line: string, entry: string, lines: seq<string>, entries: seq<string>)
    requires f(line) == Some(entry) && FoundOnEach(f, lines, entries)
    ensures FoundOnEach(f, [line] + lines, [entry] + entries)
  {
  }

  /** Nothing on the first and the last line, one entry on each line between. */
  lemma CollectFramed(f: string -> Option<string>, header: string, lines: seq<string>, footer: string,
                      entries: seq<string>)
    requires f(header) == None && f(footer) == None && FoundOnEach(f, lines, entries)
    ensures Collect(f, [header] + lines + [footer]) == entries
  {
    CollectCons(f, footer, []);
    CollectEach(f, lines, entries, [footer]);
    CollectCons(f, header, lines + [footer]);
    assert [header] + lines + [footer] == [header] + (lines + [footer]);
    assert [footer] + [] == [footer];
  }

  lemma {:induction false} AllowLinesCaptured(networks: seq<string>)
    requires forall i :: 0 <= i < |networks| ==> EntryText(networks[i])
    ensures FoundOnEach(Capture, AllowLines(networks), networks)
    decreases |networks|
  {
    if networks != [] {
      AllowLineCaptured(networks[0]);
      AllowLinesCaptured(networks[1..]);
      FoundOnCons(Capture, AllowLine(networks[0]), networks[0], AllowLines(networks[1..]), networks[1..]);
      assert networks == [networks[0]] + networks[1..];
    }
  }

  lemma {:induction false} OtherLinesNotCaptured(title: string)
    ensures Capture("# " + title) == None && Capture("deny all;") == None
  {
    assert ("# " + title)[0] == '#' && "deny all;"[0] == 'd';
    assert Trimmed("# " + title) == "# " + title && Trimmed("deny all;") == "deny all;";
    assert ALLOW[0] == 'a';
  }

  lemma {:induction false} FramedReadsBack(f: string -> Option<string>, header: string, lines: seq<string>,
                                           footer: string, entries: seq<string>)
    requires IsLine(header) && IsLine(footer) && forall i :: 0 <= i < |lines| ==> IsLine(lines[i])
    requires f(header) == None && f(footer) == None && FoundOnEach(f, lines, entries)
    ensures Collect(f, FileLines(Joined([header] + lines + [footer]) + "\n")) == entries
  {
    JoinedSplits([header] + lines + [footer]);
    CollectFramed(f, header, lines, footer, entries);
  }

  lemma CommentReadsBack(comment: string)
    requires IsLine(comment) && Capture(comment) == None
    ensures Captured(FileLines(comment + "\n")) == []
  {
    JoinedSplits([comment]);
    CollectCons(Capture, comment, []);
    assert [comment] + [] == [comment];
  }

  lemma CommentIsLine(title: string)
    requires '\n' !in title
    ensures IsLine("# " + title) && IsLine("deny all;")
  {
  }

  /** Reading the file back returns exactly the list it was rendered from. */
  lemma ReadsBackWhatIsRendered(networks: seq<string>, title: string, emptyTitle: string)
    requires forall i :: 0 <= i < |networks| ==> EntryText(networks[i])
    requires '\n' !in title && '\n' !in emptyTitle
    ensures Captured(FileLines(Rendered(networks, title, emptyTitle))) == networks
  {
    if networks == [] {
      CommentIsLine(emptyTitle);
      OtherLinesNotCaptured(emptyTitle);
      CommentReadsBack("# " + emptyTitle);
    } else {
      CommentIsLine(title);
      OtherLinesNotCaptured(title);
      AllowLinesAreLines(networks);
      AllowLinesCaptured(networks);
      FramedReadsBack(Capture, "# " + title, AllowLines(networks), "deny all;", networks);
    }
  }

  // --- The plugin's decision -------------------------------------------------------------------

  /** The loop over entries stops at the first that matches or that raises. */
  function AnyMatch(lib: Lib, ip: string, entries: seq<string>): Option<bool> {
    if entries == [] then Some(false)
    else
      var m := CidrMatch(lib, ip, entries[0]);
      if m == Some(false) then AnyMatch(lib, ip, entries[1..]) else m
  }

  method ReadEntries(text: string) returns (entries: seq<string>)
    ensures entries == Captured(FileLines(text))
  {
    var lines := FileLines(text);
    entries := [];
    for i := 0 to |lines|
      invariant Collect(Capture, lines) == entries + Collect(Capture, lines[i..])
    {
      CollectFrom(Capture, lines, i, entries);
      var c := Capture(lines[i]);
      if c.Some? {
        entries := entries + [c.value];
      }
    }
    assert entries + Collect(Capture, []) == entries;
  }

  method MatchAny(lib: Lib, ip: string, entries: seq<string>) returns (matched: Option<bool>)
    ensures matched == AnyMatch(lib, ip, entries)
  {
    for i := 0 to |entries|
      invariant AnyMatch(lib, ip, entries) == AnyMatch(lib, ip, entries[i..])
    {
      assert entries[i..][0] == entries[i] && entries[i..][1..] == entries[i + 1..];
      var m := CidrMatch(lib, ip, entries[i]);
      if m != Some(false) {
        return m;
      }
    }
    return Some(false);
  }

  /** `text` is None for a file that is not there or cannot be read; a result None is a raised error. */
  method IpAllowed(lib: Lib, text: Option<string>, ip: string) returns (allowed: Option<bool>)
    ensures allowed ==
      if text.None? || Captured(FileLines(text.value)) == [] then Some(true)
      else AnyMatch(lib, ip, Captured(FileLines(text.value)))
  {
    if text.None? {
      return Some(true);
    }
    var entries := ReadEntries(text.value);
    if entries == [] {
      return Some(true);
    }
    allowed := MatchAny(lib, ip, entries);
  }

  lemma CollectFrom(f: string -> Option<string>, lines: seq<string>, i: nat, before: seq<string>)
    requires i < |lines|
    ensures before + Collect(f, lines[i..])
         == (if f(lines[i]).Some? then before + [f(lines[i]).value] else before) + Collect(f, lines[i + 1..])
  {
  }

  function ShowAll(lib: Lib, nets: seq<Network>): seq<string> {
    if nets == [] then [] else [Show(lib, nets[0])] + ShowAll(lib, nets[1..])
  }

  ghost predicate AllNormal(lib: Lib, nets: seq<Network>) {
    forall i :: 0 <= i < |nets| ==> Normal(lib, nets[i])
  }

  ghost predicate InSome(nets: seq<Network>, ip: bv64)
    requires forall i :: 0 <= i < |nets| && nets[i].V4? ==> 0 <= nets[i].bits <= 32
  {
    exists i :: 0 <= i < |nets| && Contains(nets[i], ip)
  }

  lemma AnyOrFirst(nets: seq<Network>, ip: bv64)
    requires nets != [] && forall i :: 0 <= i < |nets| && nets[i].V4? ==> 0 <= nets[i].bits <= 32
    ensures InSome(nets, ip) <==> Contains(nets[0], ip) || InSome(nets[1..], ip)
  {
    assert forall i :: 0 <= i < |nets| - 1 ==> nets[1..][i] == nets[i + 1];
  }

  lemma {:induction false} AnyMatchIsInSome(lib: Lib, nets: seq<Network>, ip: bv64)
    requires Faithful(lib) && AllNormal(lib, nets) && ip < ADDRESSES
    ensures AnyMatch(lib, lib.dotted(ip), ShowAll(lib, nets)) == Some(InSome(nets, ip))
    decreases |nets|
  {
    if nets != [] {
      MatchesBlock(lib, nets[0], ip);
      AnyMatchIsInSome(lib, nets[1..], ip);
      AnyOrFirst(nets, ip);
      assert ShowAll(lib, nets)[0] == Show(lib, nets[0]) && ShowAll(lib, nets)[1..] == ShowAll(lib, nets[1..]);
    }
  }

  lemma DigitsAreEntryChars(s: string)
    requires MadeOf(s, "0123456789.")
    ensures AllEntryChars(s)
  {
    assert forall i :: 0 <= i < |s| ==> s[i] in "0123456789.";
  }

  lemma FewerChars(s: string)
    requires MadeOf(s, "0123456789")
    ensures MadeOf(s, "0123456789.")
  {
    forall i | 0 <= i < |s| ensures s[i] in "0123456789." {
      var k :| 0 <= k < 10 && "0123456789"[k] == s[i];
      assert "0123456789."[k] == s[i];
    }
  }

  lemma ShownIsEntry(lib: Lib, n: Network)
    requires Faithful(lib) && Normal(lib, n)
    ensures EntryText(Show(lib, n))
  {
    match n
    case V4(base, bits) =>
      FewerChars(lib.decimal(bits));
      DigitsAreEntryChars(lib.dotted(base));
      DigitsAreEntryChars(lib.decimal(bits));
    case V6(text) => EntryCharsAre(text);
  }

  lemma {:induction false} ShownAreEntries(lib: Lib, nets: seq<Network>)
    requires Faithful(lib) && AllNormal(lib, nets)
    ensures |ShowAll(lib, nets)| == |nets|
    ensures forall i :: 0 <= i < |nets| ==> EntryText(ShowAll(lib, nets)[i])
    decreases |nets|
  {
    if nets != [] {
      ShownIsEntry(lib, nets[0]);
      ShownAreEntries(lib, nets[1..]);
      assert forall i :: 0 < i < |nets| ==> ShowAll(lib, nets)[i] == ShowAll(lib, nets[1..])[i - 1];
    }
  }

  /** Portal and plugin agree: from the rendered file, an IPv4 client is let in exactly when the list is empty
      or its address lies in the block of some IPv4 entry. */
  lemma ZoneAgrees(lib: Lib, nets: seq<Network>, title: string, emptyTitle: string, ip: bv64)
    requires Faithful(lib) && AllNormal(lib, nets) && ip < ADDRESSES
    requires '\n' !in title && '\n' !in emptyTitle
    ensures var entries := Captured(FileLines(Rendered(ShowAll(lib, nets), title, emptyTitle)));
      (if entries == [] then Some(true) else AnyMatch(lib, lib.dotted(ip), entries))
      == Some(nets == [] || InSome(nets, ip))
  {
    ShownAreEntries(lib, nets);
    ReadsBackWhatIsRendered(ShowAll(lib, nets), title, emptyTitle);
    AnyMatchIsInSome(lib, nets, ip);
  }
}
