/** The imapsync command line: built, scanned, and read back the way imapsync reads it. */
module Argv {
  import opened Wrappers
  import opened Texts
  import opened Flags

  // --- The forbidden pattern --------------------------------------------------------------

  /** Words matched with anything that continues them, and words matched only whole. */
  const OPEN_WORDS: seq<string> := ["--delete1", "--expunge1"]
  const CLOSED_WORDS: seq<string> := [
    "--search1", "--noexpunge1", "--pipemess", "--pipemesscheck", "--exec", "--execafter", "--execbefore"]

  /** Is there a word boundary at `k`? `wordChar` is the pattern language's class of word characters. */
  predicate Boundary(wordChar: char -> bool, s: string, k: nat)
    requires k <= |s|
  {
    (k > 0 && wordChar(s[k - 1])) != (k < |s| && wordChar(s[k]))
  }

  /** Some alternative, then `more` word characters where it allows them, then a word boundary. */
  predicate MatchesTo(wordChar: char -> bool, s: string, w: string, more: nat) {
    && |w| + more <= |s| && s[..|w|] == w
    && (forall i :: |w| <= i < |w| + more ==> wordChar(s[i]))
    && Boundary(wordChar, s, |w| + more)
  }

  ghost predicate Forbidden(wordChar: char -> bool, s: string) {
    || (exists w, more :: w in OPEN_WORDS && MatchesTo(wordChar, s, w, more))
    || (exists w :: w in CLOSED_WORDS && MatchesTo(wordChar, s, w, 0))
  }

  /** What a backtracking matcher would find out, decided in one look. */
  predicate Caught(wordChar: char -> bool, s: string) {
    || (exists w :: w in OPEN_WORDS && w <= s)
    || (exists w :: w in CLOSED_WORDS && w <= s && (|s| == |w| || !wordChar(s[|w|])))
  }

  /** Letters, digits and the underscore are word characters in every such language. */
  ghost predicate HasAsciiWords(wordChar: char -> bool) {
    forall c :: 'a' <= c <= 'z' || 'A' <= c <= 'Z' || '0' <= c <= '9' || c == '_' ==> wordChar(c)
  }

  function RunLength(wordChar: char -> bool, s: string, from: nat): (n: nat)
    requires from <= |s|
    ensures from + n <= |s|
    ensures forall i :: from <= i < from + n ==> wordChar(s[i])
    ensures from + n < |s| ==> !wordChar(s[from + n])
    decreases |s| - from
  {
    if from == |s| || !wordChar(s[from]) then 0 else 1 + RunLength(wordChar, s, from + 1)
  }

  lemma EndsInWordChar(wordChar: char -> bool, w: string)
    requires HasAsciiWords(wordChar) && (w in OPEN_WORDS || w in CLOSED_WORDS)
    ensures |w| > 0 && wordChar(w[|w| - 1])
  {
  }

  lemma OpenWordAlwaysMatches(wordChar: char -> bool, s: string, w: string)
    requires HasAsciiWords(wordChar) && w in OPEN_WORDS && w <= s
    ensures MatchesTo(wordChar, s, w, RunLength(wordChar, s, |w|))
  {
  }

  lemma {:induction false} ForbiddenIsCaught(wordChar: char -> bool, s: string)
    requires HasAsciiWords(wordChar)
    ensures Forbidden(wordChar, s) <==> Caught(wordChar, s)
  {
    forall w | w in OPEN_WORDS && w <= s ensures Forbidden(wordChar, s) {
      OpenWordAlwaysMatches(wordChar, s, w);
    }
    forall w | w in CLOSED_WORDS && w <= s ensures MatchesTo(wordChar, s, w, 0) <==> |s| == |w| || !wordChar(s[|w|]) {
      EndsInWordChar(wordChar, w);
      assert s[|w| - 1] == w[|w| - 1];
    }
  }

  // --- Reading a command line ----------------------------------------------------------------

  /** Flags the builder itself writes, with and without a value. */
  const OWN_VALUED: set<string> := {"--host1", "--port1", "--user1", "--passfile1",
                                    "--host2", "--port2", "--user2", "--passfile2", "--tmpdir", "--maxage"}
  const OWN_PLAIN: set<string> := {"--ssl1", "--ssl2", "--nolog", "--automap", "--no-automap", "--delete2", "--dry"}

  datatype Arg = Arg(flag: string, value: Option<string>)

  predicate TakesValue(flag: string) { flag in OWN_VALUED || flag in VALUED }

  predicate TakesNone(flag: string) { flag in OWN_PLAIN || flag in PLAIN }

  predicate Proper(arg: Arg) {
    if arg.value.Some? then TakesValue(arg.flag) else TakesNone(arg.flag)
  }

  function Written(arg: Arg): seq<string> {
    if arg.value.Some? then [arg.flag, arg.value.value] else [arg.flag]
  }

  function WrittenAll(args: seq<Arg>): seq<string> {
    if args == [] then [] else Written(args[0]) + WrittenAll(args[1..])
  }

  ghost predicate AllProper(args: seq<Arg>) {
    forall i :: 0 <= i < |args| ==> Proper(args[i])
  }

  /** By arity, left to right: a flag that takes a value swallows the next token, whatever it is. */
  function Read(tokens: seq<string>): Option<seq<Arg>>
    decreases |tokens|
  {
    if tokens == [] then Some([])
    else if TakesValue(tokens[0]) then
      if |tokens| < 2 then None else Push(Arg(tokens[0], Some(tokens[1])), Read(tokens[2..]))
    else if TakesNone(tokens[0]) then Push(Arg(tokens[0], None), Read(tokens[1..]))
    else None
  }

  function Push(arg: Arg, rest: Option<seq<Arg>>): Option<seq<Arg>> {
    if rest.Some? then Some([arg] + rest.value) else None
  }

  lemma NoFlagIsBoth(flag: string)
    ensures !(TakesValue(flag) && TakesNone(flag))
  {
  }

  lemma {:induction false} ReadsBack(args: seq<Arg>)
    requires AllProper(args)
    ensures Read(WrittenAll(args)) == Some(args)
    decreases |args|
  {
    if args != [] {
      var tokens := WrittenAll(args);
      NoFlagIsBoth(args[0].flag);
      ReadsBack(args[1..]);
      assert tokens[|Written(args[0])|..] == WrittenAll(args[1..]);
      assert [args[0]] + args[1..] == args;
    }
  }

  lemma {:induction false} WrittenAppend(args: seq<Arg>, more: seq<Arg>)
    ensures WrittenAll(args + more) == WrittenAll(args) + WrittenAll(more)
    decreases |args|
  {
    if args == [] {
      assert args + more == more;
    } else {
      WrittenAppend(args[1..], more);
      FirstAndMore(args, more);
      Associates(Written(args[0]), WrittenAll(args[1..]), WrittenAll(more));
    }
  }

  lemma FirstAndMore<T>(args: seq<T>, more: seq<T>)
    requires args != []
    ensures args + more != [] && (args + more)[0] == args[0] && (args + more)[1..] == args[1..] + more
  {
  }

  lemma Associates<T>(a: seq<T>, b: seq<T>, c: seq<T>)
    ensures a + (b + c) == a + b + c
  {
  }

  function ArgOf(item: Item): Arg {
    Arg(item.flag, if item.Bare? then None else Some(item.value))
  }

  function ArgsOf(items: seq<Item>): seq<Arg> {
    seq(|items|, i requires 0 <= i < |items| => ArgOf(items[i]))
  }

  /** The filter's output, read by arity, is the items that were accepted. */
  lemma {:induction false} ArgsOfItems(items: seq<Item>)
    requires AllWellFormed(items)
    ensures AllProper(ArgsOf(items)) && WrittenAll(ArgsOf(items)) == MeantAll(items)
    decreases |items|
  {
    if items != [] {
      ArgsOfItems(items[1..]);
      assert ArgsOf(items)[1..] == ArgsOf(items[1..]);
    }
  }

  // --- The builder --------------------------------------------------------------------------

  datatype Endpoint = Endpoint(host: string, port: int, user: string, passfile: string)

  datatype Request = Request(source: Endpoint, destination: Endpoint, daysBack: int, preserveFolders: bool,
                             deleteOnDestination: bool, dryRun: bool, extra: seq<string>)

  const PROGRAM := "/usr/local/bin/imapsync"

  function Valued(flag: string, value: string): Arg { Arg(flag, Some(value)) }

  function Plain(flag: string): Arg { Arg(flag, None) }

  function EndpointArgs(hostFlag: string, portFlag: string, userFlag: string, passfileFlag: string, sslFlag: string,
                        e: Endpoint, decimal: int -> string): seq<Arg> {
    [Valued(hostFlag, e.host), Valued(portFlag, decimal(e.port)), Valued(userFlag, e.user),
     Valued(passfileFlag, e.passfile), Plain(sslFlag)]
  }

  function FixedArgs(preserveFolders: bool): seq<Arg> {
    [Plain("--nolog"), Valued("--tmpdir", "/tmp"), Plain(if preserveFolders then "--automap" else "--no-automap")]
  }

  function EndpointTokens(hostFlag: string, portFlag: string, userFlag: string, passfileFlag: string, sslFlag: string,
                          e: Endpoint, decimal: int -> string): seq<string> {
    [hostFlag, e.host, portFlag, decimal(e.port), userFlag, e.user, passfileFlag, e.passfile, sslFlag]
  }

  lemma EndpointWritten(hostFlag: string, portFlag: string, userFlag: string, passfileFlag: string, sslFlag: string,
                        e: Endpoint, decimal: int -> string)
    ensures WrittenAll(EndpointArgs(hostFlag, portFlag, userFlag, passfileFlag, sslFlag, e, decimal))
         == EndpointTokens(hostFlag, portFlag, userFlag, passfileFlag, sslFlag, e, decimal)
  {
    var host, port, user := Valued(hostFlag, e.host), Valued(portFlag, decimal(e.port)), Valued(userFlag, e.user);
    var passfile, ssl := Valued(passfileFlag, e.passfile), Plain(sslFlag);
    WrittenPair(host, port);
    WrittenPair(user, passfile);
    WrittenAppend([host, port], [user, passfile]);
    WrittenAppend([host, port] + [user, passfile], [ssl]);
    assert WrittenAll([ssl]) == Written(ssl) + [];
    assert EndpointArgs(hostFlag, portFlag, userFlag, passfileFlag, sslFlag, e, decimal)
        == [host, port] + [user, passfile] + [ssl];
  }

  lemma WrittenPair(a: Arg, b: Arg)
    ensures WrittenAll([a, b]) == Written(a) + Written(b)
  {
    assert [a, b][1..] == [b] && WrittenAll([b]) == Written(b) + [];
  }

  lemma FixedWritten(preserveFolders: bool)
    ensures WrittenAll(FixedArgs(preserveFolders))
         == ["--nolog", "--tmpdir", "/tmp", if preserveFolders then "--automap" else "--no-automap"]
  {
    var args := FixedArgs(preserveFolders);
    WrittenAppend(args[..1], args[1..]);
    assert args == args[..1] + args[1..];
    assert WrittenAll(args[..1]) == ["--nolog"];
    assert WrittenAll(args[1..]) == Written(args[1]) + WrittenAll([args[2]]);
  }

  /** The part that is always there. */
  function Head(r: Request, decimal: int -> string): seq<string> {
    [PROGRAM]
    + EndpointTokens("--host1", "--port1", "--user1", "--passfile1", "--ssl1", r.source, decimal)
    + EndpointTokens("--host2", "--port2", "--user2", "--passfile2", "--ssl2", r.destination, decimal)
    + ["--nolog", "--tmpdir", "/tmp", if r.preserveFolders then "--automap" else "--no-automap"]
  }

  function HeadArgs(r: Request, decimal: int -> string): seq<Arg> {
    EndpointArgs("--host1", "--port1", "--user1", "--passfile1", "--ssl1", r.source, decimal)
    + EndpointArgs("--host2", "--port2", "--user2", "--passfile2", "--ssl2", r.destination, decimal)
    + FixedArgs(r.preserveFolders)
  }

  /** The flags the request itself asks for, in the order they are written. */
  function OwnArgs(r: Request, decimal: int -> string): seq<Arg> {
    HeadArgs(r, decimal) + When(r.daysBack > 0, Valued("--maxage", decimal(r.daysBack)))
    + When(r.deleteOnDestination, Plain("--delete2")) + When(r.dryRun, Plain("--dry"))
  }

  lemma HeadWritten(r: Request, decimal: int -> string)
    ensures [PROGRAM] + WrittenAll(HeadArgs(r, decimal)) == Head(r, decimal)
  {
    var source := EndpointArgs("--host1", "--port1", "--user1", "--passfile1", "--ssl1", r.source, decimal);
    var destination := EndpointArgs("--host2", "--port2", "--user2", "--passfile2", "--ssl2", r.destination, decimal);
    EndpointWritten("--host1", "--port1", "--user1", "--passfile1", "--ssl1", r.source, decimal);
    EndpointWritten("--host2", "--port2", "--user2", "--passfile2", "--ssl2", r.destination, decimal);
    FixedWritten(r.preserveFolders);
    WrittenAppend(source, destination);
    WrittenAppend(source + destination, FixedArgs(r.preserveFolders));
    Regroup([PROGRAM], WrittenAll(source), WrittenAll(destination), WrittenAll(FixedArgs(r.preserveFolders)));
  }

  lemma Regroup<T>(a: seq<T>, b: seq<T>, c: seq<T>, d: seq<T>)
    ensures a + (b + c + d) == a + b + c + d
  {
  }

  lemma WrittenIf(before: seq<string>, args: seq<Arg>, condition: bool, arg: Arg)
    ensures before + WrittenAll(args + When(condition, arg))
         == if condition then before + WrittenAll(args) + Written(arg) else before + WrittenAll(args)
  {
    WrittenAppend(args, When(condition, arg));
    assert Written(arg) + [] == Written(arg);
    assert args + [] == args;
    assert before + (WrittenAll(args) + Written(arg)) == before + WrittenAll(args) + Written(arg);
  }

  function Full(r: Request, decimal: int -> string): seq<string> {
    [PROGRAM] + WrittenAll(OwnArgs(r, decimal)) + r.extra
  }

  method WriteArgv(decimal: int -> string, r: Request) returns (argv: seq<string>)
    ensures argv == Full(r, decimal)
  {
    argv := Head(r, decimal);
    HeadWritten(r, decimal);
    ghost var args := HeadArgs(r, decimal);
    WrittenIf([PROGRAM], args, r.daysBack > 0, Valued("--maxage", decimal(r.daysBack)));
    if r.daysBack > 0 {
      argv := argv + ["--maxage", decimal(r.daysBack)];
    }
    args := args + When(r.daysBack > 0, Valued("--maxage", decimal(r.daysBack)));
    WrittenIf([PROGRAM], args, r.deleteOnDestination, Plain("--delete2"));
    if r.deleteOnDestination {
      argv := argv + ["--delete2"];
    }
    args := args + When(r.deleteOnDestination, Plain("--delete2"));
    WrittenIf([PROGRAM], args, r.dryRun, Plain("--dry"));
    if r.dryRun {
      argv := argv + ["--dry"];
    }
    argv := argv + r.extra;
  }

  method Scan(bad: string -> bool, argv: seq<string>) returns (found: Option<string>)
    ensures found.None? ==> forall s :: s in argv ==> !bad(s)
    ensures found.Some? ==> found.value in argv && bad(found.value)
  {
    for i := 0 to |argv|
      invariant forall j :: 0 <= j < i ==> !bad(argv[j])
    {
      if bad(argv[i]) {
        return Some(argv[i]);
      }
    }
    return None;
  }

  /** The builder refuses exactly the command lines that hold a forbidden element, flag or value. */
  method BuildArgv(wordChar: char -> bool, decimal: int -> string, r: Request)
    returns (result: Result<seq<string>, string>)
    ensures result.Ok? ==> result.value == Full(r, decimal) && Clean(wordChar, Full(r, decimal))
    ensures result.Error? ==> result.error in Full(r, decimal) && Caught(wordChar, result.error)
  {
    var argv := WriteArgv(decimal, r);
    var found := Scan(s => Caught(wordChar, s), argv);
    result := if found.Some? then Error(found.value) else Ok(argv);
  }

  predicate Clean(wordChar: char -> bool, argv: seq<string>) {
    forall s :: s in argv ==> !Caught(wordChar, s)
  }

  // --- What the command line says --------------------------------------------------------------

  lemma HeadArgsProper(r: Request, decimal: int -> string)
    ensures AllProper(HeadArgs(r, decimal))
  {
    assert AllProper(EndpointArgs("--host1", "--port1", "--user1", "--passfile1", "--ssl1", r.source, decimal));
    assert AllProper(EndpointArgs("--host2", "--port2", "--user2", "--passfile2", "--ssl2", r.destination, decimal));
    assert AllProper(FixedArgs(r.preserveFolders));
  }

  lemma OptionalArgsProper(r: Request, decimal: int -> string)
    ensures Proper(Valued("--maxage", decimal(r.daysBack))) && Proper(Plain("--delete2")) && Proper(Plain("--dry"))
  {
  }

  lemma ProperWhen(args: seq<Arg>, condition: bool, arg: Arg)
    requires AllProper(args) && Proper(arg)
    ensures AllProper(args + When(condition, arg))
  {
  }

  lemma {:induction false} OwnArgsProper(r: Request, decimal: int -> string)
    ensures AllProper(OwnArgs(r, decimal))
  {
    var head := HeadArgs(r, decimal);
    var aged := head + When(r.daysBack > 0, Valued("--maxage", decimal(r.daysBack)));
    HeadArgsProper(r, decimal);
    OptionalArgsProper(r, decimal);
    ProperWhen(head, r.daysBack > 0, Valued("--maxage", decimal(r.daysBack)));
    ProperWhen(aged, r.deleteOnDestination, Plain("--delete2"));
    ProperWhen(aged + When(r.deleteOnDestination, Plain("--delete2")), r.dryRun, Plain("--dry"));
  }

  lemma AfterProgram(program: string, own: seq<string>, extra: seq<string>)
    ensures ([program] + own + extra)[1..] == own + extra
  {
  }

  /** Reading by arity gives the request's own flags, then the extra items, whatever the values look like. */
  lemma ReadsAsAsked(r: Request, decimal: int -> string, tokens: seq<string>, items: seq<Item>)
    requires SplitsInto(tokens, r.extra, items)
    ensures Read(Full(r, decimal)[1..]) == Some(OwnArgs(r, decimal) + ArgsOf(items))
  {
    var own := OwnArgs(r, decimal);
    OwnArgsProper(r, decimal);
    ArgsOfItems(items);
    WrittenAppend(own, ArgsOf(items));
    AfterProgram(PROGRAM, WrittenAll(own), r.extra);
    ReadsBack(own + ArgsOf(items));
  }

  ghost predicate InFlagPosition(args: seq<Arg>, flag: string) {
    exists i :: 0 <= i < |args| && args[i].flag == flag
  }

  lemma ExtraFlagsAllowed(items: seq<Item>, flag: string)
    requires AllWellFormed(items) && InFlagPosition(ArgsOf(items), flag)
    ensures Allowed(flag)
  {
  }

  lemma OwnFlagsSayDelete(r: Request, decimal: int -> string)
    ensures InFlagPosition(OwnArgs(r, decimal), "--delete2") <==> r.deleteOnDestination
  {
    var own := OwnArgs(r, decimal);
    var at := |HeadArgs(r, decimal)| + |When(r.daysBack > 0, Valued("--maxage", decimal(r.daysBack)))|;
    if r.deleteOnDestination {
      assert own[at] == Plain("--delete2");
    } else {
      assert own == HeadArgs(r, decimal) + When(r.daysBack > 0, Valued("--maxage", decimal(r.daysBack)))
        + When(r.dryRun, Plain("--dry"));
    }
  }

  /** imapsync is told to delete on the destination exactly when the administrator enabled it, whatever
      accepted flags are added. */
  lemma DeletesOnlyIfEnabled(r: Request, decimal: int -> string, tokens: seq<string>, items: seq<Item>)
    requires SplitsInto(tokens, r.extra, items)
    ensures Read(Full(r, decimal)[1..]).Some?
    ensures InFlagPosition(Read(Full(r, decimal)[1..]).value, "--delete2") <==> r.deleteOnDestination
  {
    var own, extra := OwnArgs(r, decimal), ArgsOf(items);
    ReadsAsAsked(r, decimal, tokens, items);
    OwnFlagsSayDelete(r, decimal);
    if InFlagPosition(extra, "--delete2") {
      ExtraFlagsAllowed(items, "--delete2");
    }
    InEitherPart(own, extra, "--delete2");
  }

  lemma InEitherPart(a: seq<Arg>, b: seq<Arg>, flag: string)
    ensures InFlagPosition(a + b, flag) <==> InFlagPosition(a, flag) || InFlagPosition(b, flag)
  {
    assert forall i :: 0 <= i < |a| ==> (a + b)[i] == a[i];
    assert forall i :: 0 <= i < |b| ==> (a + b)[|a| + i] == b[i];
  }

  // --- The values, flag by flag -----------------------------------------------------------------

  /** What stands with a flag, in order, wherever it occurs in flag position. */
  function Values(args: seq<Arg>, flag: string): seq<Option<string>> {
    if args == [] then [] else When(args[0].flag == flag, args[0].value) + Values(args[1..], flag)
  }

  lemma {:induction false} ValuesAppend(a: seq<Arg>, b: seq<Arg>, flag: string)
    ensures Values(a + b, flag) == Values(a, flag) + Values(b, flag)
    decreases |a|
  {
    if a == [] {
      assert a + b == b;
    } else {
      ValuesAppend(a[1..], b, flag);
      assert (a + b)[1..] == a[1..] + b;
    }
  }

  lemma {:induction false} ValuesElsewhere(args: seq<Arg>, flag: string)
    requires forall i :: 0 <= i < |args| ==> args[i].flag != flag
    ensures Values(args, flag) == []
    decreases |args|
  {
    if args != [] {
      ValuesElsewhere(args[1..], flag);
    }
  }

  /** A flag that stands at one place only. */
  lemma {:induction false} ValuesOnce(args: seq<Arg>, k: nat)
    requires k < |args| && forall i :: 0 <= i < |args| && i != k ==> args[i].flag != args[k].flag
    ensures Values(args, args[k].flag) == [args[k].value]
  {
    ValuesElsewhere(args[..k], args[k].flag);
    ValuesElsewhere(args[k + 1..], args[k].flag);
    ValuesAppend(args[..k], args[k..], args[k].flag);
    assert args[..k] + args[k..] == args;
  }

  lemma ExtraHasNone(items: seq<Item>, flag: string)
    requires AllWellFormed(items) && !Allowed(flag)
    ensures Values(ArgsOf(items), flag) == []
  {
    ValuesElsewhere(ArgsOf(items), flag);
  }

  function HeadFlags(preserveFolders: bool): seq<string> {
    ["--host1", "--port1", "--user1", "--passfile1", "--ssl1", "--host2", "--port2", "--user2", "--passfile2", "--ssl2",
     "--nolog", "--tmpdir", if preserveFolders then "--automap" else "--no-automap"]
  }

  /** Enough of a flag to tell those of the builder apart. */
  function Look(flag: string): (int, char, char)
    requires |flag| >= 3
  {
    (|flag|, flag[2], flag[|flag| - 1])
  }

  lemma LooksOfHead(preserveFolders: bool)
    ensures var flags := HeadFlags(preserveFolders);
      && (forall i :: 0 <= i < 13 ==> |flags[i]| >= 3)
      && Look(flags[0]) == (7, 'h', '1') && Look(flags[1]) == (7, 'p', '1') && Look(flags[2]) == (7, 'u', '1')
      && Look(flags[3]) == (11, 'p', '1') && Look(flags[4]) == (6, 's', '1')
      && Look(flags[5]) == (7, 'h', '2') && Look(flags[6]) == (7, 'p', '2') && Look(flags[7]) == (7, 'u', '2')
      && Look(flags[8]) == (11, 'p', '2') && Look(flags[9]) == (6, 's', '2')
      && Look(flags[10]) == (7, 'n', 'g') && Look(flags[11]) == (8, 't', 'r')
      && Look(flags[12]) == if preserveFolders then (9, 'a', 'p') else (12, 'n', 'p')
  {
  }

  lemma HeadFlagsDiffer(preserveFolders: bool)
    ensures var flags := HeadFlags(preserveFolders);
      && (forall i, j :: 0 <= i < j < 13 ==> flags[i] != flags[j])
      && (forall i :: 0 <= i < 13 ==> flags[i] != "--maxage" && flags[i] != "--delete2" && flags[i] != "--dry"
                                      && flags[i] != if preserveFolders then "--no-automap" else "--automap")
  {
    LooksOfHead(preserveFolders);
    assert Look("--maxage") == (8, 'm', 'e') && Look("--delete2") == (9, 'd', '2') && Look("--dry") == (5, 'd', 'y');
    assert Look("--automap") == (9, 'a', 'p') && Look("--no-automap") == (12, 'n', 'p');
  }

  lemma HeadFlagsAre(r: Request, decimal: int -> string)
    ensures |HeadArgs(r, decimal)| == 13
    ensures forall i :: 0 <= i < 13 ==> HeadArgs(r, decimal)[i].flag == HeadFlags(r.preserveFolders)[i]
  {
  }

  lemma HeadValue(r: Request, decimal: int -> string, k: nat)
    requires k < 13
    ensures |HeadArgs(r, decimal)| == 13
    ensures Values(HeadArgs(r, decimal), HeadFlags(r.preserveFolders)[k]) == [HeadArgs(r, decimal)[k].value]
  {
    HeadFlagsAre(r, decimal);
    HeadFlagsDiffer(r.preserveFolders);
    ValuesOnce(HeadArgs(r, decimal), k);
  }

  lemma HeadHasNone(r: Request, decimal: int -> string, flag: string)
    requires flag == "--maxage" || flag == "--delete2" || flag == "--dry"
      || flag == if r.preserveFolders then "--no-automap" else "--automap"
    ensures Values(HeadArgs(r, decimal), flag) == []
  {
    HeadFlagsAre(r, decimal);
    HeadFlagsDiffer(r.preserveFolders);
    ValuesElsewhere(HeadArgs(r, decimal), flag);
  }

  lemma ValuesWhen(condition: bool, arg: Arg, flag: string)
    ensures Values(When(condition, arg), flag) == When(condition && arg.flag == flag, arg.value)
  {
  }

  lemma ValuesOfAll(r: Request, decimal: int -> string, tokens: seq<string>, items: seq<Item>, flag: string)
    requires SplitsInto(tokens, r.extra, items)
    ensures Read(Full(r, decimal)[1..]).Some?
    ensures Values(Read(Full(r, decimal)[1..]).value, flag)
      == Values(HeadArgs(r, decimal), flag) + When(r.daysBack > 0 && flag == "--maxage", Some(decimal(r.daysBack)))
      + When(r.deleteOnDestination && flag == "--delete2", None) + When(r.dryRun && flag == "--dry", None)
      + Values(ArgsOf(items), flag)
  {
    var head, aged := HeadArgs(r, decimal), When(r.daysBack > 0, Valued("--maxage", decimal(r.daysBack)));
    var deleting, dry := When(r.deleteOnDestination, Plain("--delete2")), When(r.dryRun, Plain("--dry"));
    ReadsAsAsked(r, decimal, tokens, items);
    ValuesAppend(head, aged, flag);
    ValuesAppend(head + aged, deleting, flag);
    ValuesAppend(head + aged + deleting, dry, flag);
    ValuesAppend(head + aged + deleting + dry, ArgsOf(items), flag);
    ValuesWhen(r.daysBack > 0, Valued("--maxage", decimal(r.daysBack)), flag);
    ValuesWhen(r.deleteOnDestination, Plain("--delete2"), flag);
    ValuesWhen(r.dryRun, Plain("--dry"), flag);
  }

  /** A flag of the fixed part is read once, with its value there. */
  lemma FixedIsRead(r: Request, decimal: int -> string, tokens: seq<string>, items: seq<Item>, k: nat)
    requires SplitsInto(tokens, r.extra, items) && k < 13
    ensures |HeadArgs(r, decimal)| == 13 && Read(Full(r, decimal)[1..]).Some?
    ensures var flag := HeadFlags(r.preserveFolders)[k];
      Values(Read(Full(r, decimal)[1..]).value, flag) == [HeadArgs(r, decimal)[k].value]
  {
    var flag := HeadFlags(r.preserveFolders)[k];
    ValuesOfAll(r, decimal, tokens, items, flag);
    HeadValue(r, decimal, k);
    HeadFlagsDiffer(r.preserveFolders);
    FixedNotAllowed(r.preserveFolders, k);
    ExtraHasNone(items, flag);
  }

  lemma FixedNotAllowed(preserveFolders: bool, k: nat)
    requires k < 13
    ensures !Allowed(HeadFlags(preserveFolders)[k])
  {
    OthersNotAllowed(HeadFlags(preserveFolders)[k]);
  }

  lemma OthersNotAllowed(flag: string)
    requires flag in (OWN_VALUED - {"--maxage"}) || flag in OWN_PLAIN
    ensures !Allowed(flag)
  {
  }

  /** The arguments of the fixed part are read, each once. */
  lemma ReadOnce(r: Request, decimal: int -> string, tokens: seq<string>, items: seq<Item>, arg: Arg)
    requires SplitsInto(tokens, r.extra, items) && arg in HeadArgs(r, decimal)
    ensures Read(Full(r, decimal)[1..]).Some?
    ensures Values(Read(Full(r, decimal)[1..]).value, arg.flag) == [arg.value]
  {
    HeadFlagsAre(r, decimal);
    var k :| 0 <= k < 13 && HeadArgs(r, decimal)[k] == arg;
    FixedIsRead(r, decimal, tokens, items, k);
  }

  lemma HeadHolds(r: Request, decimal: int -> string)
    ensures forall arg :: arg in Endpoint1(r.source, decimal) ==> arg in HeadArgs(r, decimal)
    ensures forall arg :: arg in Endpoint2(r.destination, decimal) ==> arg in HeadArgs(r, decimal)
    ensures Plain("--nolog") in HeadArgs(r, decimal) && Valued("--tmpdir", "/tmp") in HeadArgs(r, decimal)
    ensures Plain(if r.preserveFolders then "--automap" else "--no-automap") in HeadArgs(r, decimal)
  {
    assert FixedArgs(r.preserveFolders)[0] == Plain("--nolog");
    assert FixedArgs(r.preserveFolders)[1] == Valued("--tmpdir", "/tmp");
    assert FixedArgs(r.preserveFolders)[2] == Plain(if r.preserveFolders then "--automap" else "--no-automap");
  }

  function Endpoint1(e: Endpoint, decimal: int -> string): seq<Arg> {
    [Valued("--host1", e.host), Valued("--port1", decimal(e.port)), Valued("--user1", e.user),
     Valued("--passfile1", e.passfile), Plain("--ssl1")]
  }

  function Endpoint2(e: Endpoint, decimal: int -> string): seq<Arg> {
    [Valued("--host2", e.host), Valued("--port2", decimal(e.port)), Valued("--user2", e.user),
     Valued("--passfile2", e.passfile), Plain("--ssl2")]
  }

  /** Each of these arguments is said, and its flag is said once. */
  ghost predicate SaidOnce(said: seq<Arg>, args: seq<Arg>) {
    forall i :: 0 <= i < |args| ==> Values(said, args[i].flag) == [args[i].value]
  }

  /** Host 1 is the source and host 2 the destination: address, port, user and password file of each are read as
      such, and once. */
  lemma EndpointsAsAsked(r: Request, decimal: int -> string, tokens: seq<string>, items: seq<Item>)
    requires SplitsInto(tokens, r.extra, items)
    ensures Read(Full(r, decimal)[1..]).Some?
    ensures SaidOnce(Read(Full(r, decimal)[1..]).value, [
      Arg("--host1", Some(r.source.host)), Arg("--port1", Some(decimal(r.source.port))),
      Arg("--user1", Some(r.source.user)), Arg("--passfile1", Some(r.source.passfile)), Arg("--ssl1", None)])
    ensures SaidOnce(Read(Full(r, decimal)[1..]).value, [
      Arg("--host2", Some(r.destination.host)), Arg("--port2", Some(decimal(r.destination.port))),
      Arg("--user2", Some(r.destination.user)), Arg("--passfile2", Some(r.destination.passfile)), Arg("--ssl2", None)])
  {
    HeadHolds(r, decimal);
    ReadOnce(r, decimal, tokens, items, Plain("--nolog"));
    AllReadOnce(r, decimal, tokens, items, Endpoint1(r.source, decimal));
    AllReadOnce(r, decimal, tokens, items, Endpoint2(r.destination, decimal));
  }

  lemma AllReadOnce(r: Request, decimal: int -> string, tokens: seq<string>, items: seq<Item>, args: seq<Arg>)
    requires SplitsInto(tokens, r.extra, items) && forall arg :: arg in args ==> arg in HeadArgs(r, decimal)
    requires Read(Full(r, decimal)[1..]).Some?
    ensures SaidOnce(Read(Full(r, decimal)[1..]).value, args)
  {
    forall i | 0 <= i < |args| ensures Values(Read(Full(r, decimal)[1..]).value, args[i].flag) == [args[i].value] {
      ReadOnce(r, decimal, tokens, items, args[i]);
    }
  }

  /** The switches are there exactly when asked for. */
  lemma SwitchesAsAsked(r: Request, decimal: int -> string, tokens: seq<string>, items: seq<Item>)
    requires SplitsInto(tokens, r.extra, items)
    ensures Read(Full(r, decimal)[1..]).Some?
    ensures var said := Read(Full(r, decimal)[1..]).value;
      && Values(said, "--automap") == When(r.preserveFolders, None)
      && Values(said, "--no-automap") == When(!r.preserveFolders, None)
      && Values(said, "--dry") == When(r.dryRun, None)
      && Values(said, "--delete2") == When(r.deleteOnDestination, None)
  {
    var chosen, other := if r.preserveFolders then "--automap" else "--no-automap",
                         if r.preserveFolders then "--no-automap" else "--automap";
    HeadHolds(r, decimal);
    ReadOnce(r, decimal, tokens, items, Plain(chosen));
    OptionalIsRead(r, decimal, tokens, items, "--dry");
    OptionalIsRead(r, decimal, tokens, items, "--delete2");
    OptionalIsRead(r, decimal, tokens, items, other);
    OptionalFlagsDiffer();
  }

  /** Only an age limit can be given twice, and then the one of the request comes first. */
  lemma AgeAsAsked(r: Request, decimal: int -> string, tokens: seq<string>, items: seq<Item>)
    requires SplitsInto(tokens, r.extra, items)
    ensures Read(Full(r, decimal)[1..]).Some?
    ensures Values(Read(Full(r, decimal)[1..]).value, "--maxage")
      == When(r.daysBack > 0, Some(decimal(r.daysBack))) + Values(ArgsOf(items), "--maxage")
  {
    OptionalFlagsDiffer();
    HeadHasNone(r, decimal, "--maxage");
    ValuesOfAll(r, decimal, tokens, items, "--maxage");
  }

  lemma OptionalIsRead(r: Request, decimal: int -> string, tokens: seq<string>, items: seq<Item>, flag: string)
    requires SplitsInto(tokens, r.extra, items)
    requires flag == "--delete2" || flag == "--dry" || flag == if r.preserveFolders then "--no-automap" else "--automap"
    ensures Read(Full(r, decimal)[1..]).Some?
    ensures Values(Read(Full(r, decimal)[1..]).value, flag)
      == When(r.deleteOnDestination && flag == "--delete2", None) + When(r.dryRun && flag == "--dry", None)
  {
    HeadHasNone(r, decimal, flag);
    OthersNotAllowed(flag);
    ExtraHasNone(items, flag);
    OptionalFlagsDiffer();
    ValuesOfAll(r, decimal, tokens, items, flag);
  }

  lemma OptionalFlagsDiffer()
    ensures "--delete2" != "--dry" && "--delete2" != "--maxage" && "--dry" != "--maxage"
    ensures "--automap" !in ["--delete2", "--dry", "--maxage"] && "--no-automap" !in ["--delete2", "--dry", "--maxage"]
  {
    assert Look("--maxage") == (8, 'm', 'e') && Look("--delete2") == (9, 'd', '2') && Look("--dry") == (5, 'd', 'y');
    assert Look("--automap") == (9, 'a', 'p') && Look("--no-automap") == (12, 'n', 'p');
  }

  // --- The global options, read back --------------------------------------------------------------

  lemma ArgsOfAppend(a: seq<Item>, b: seq<Item>)
    ensures ArgsOf(a + b) == ArgsOf(a) + ArgsOf(b)
  {
  }

  lemma OneOption(items: seq<Item>, condition: bool, item: Item, flag: string)
    ensures Values(ArgsOf(items + When(condition, item)), flag)
      == Values(ArgsOf(items), flag) + When(condition && item.flag == flag, ArgOf(item).value)
  {
    ArgsOfAppend(items, When(condition, item));
    assert ArgsOf(When(condition, item)) == When(condition, ArgOf(item));
    ValuesAppend(ArgsOf(items), When(condition, ArgOf(item)), flag);
    ValuesWhen(condition, ArgOf(item), flag);
  }

  /** What the administrator's options ask for, flag by flag. */
  function Asked(o: GlobalOptions, decimal: int -> string, flag: string): seq<Option<string>> {
    if flag == "--sslargs1" then [Some(if o.verifySsl then "SSL_verify_mode=1" else "SSL_verify_mode=0")]
    else if flag == "--addheader" then When(o.addHeaders, None)
    else if flag == "--maxsize" then When(o.maxSizeMb > 0, Some(decimal(o.maxSizeMb * 1048576)))
    else if flag == "--timeout" then When(o.timeoutSeconds > 0, Some(decimal(o.timeoutSeconds)))
    else if flag == "--allowsizemismatch" then When(o.allowSizeMismatch, None)
    else if flag == "--maxbytespersecond" then When(o.bandwidthMbit > 0, Some(decimal(o.bandwidthMbit * 125000)))
    else []
  }

  lemma OptionFlagsDiffer()
    ensures var flags := ["--sslargs1", "--addheader", "--maxsize", "--timeout", "--allowsizemismatch",
                          "--maxbytespersecond"];
      forall i, j :: 0 <= i < j < 6 ==> flags[i] != flags[j]
  {
    assert Look("--sslargs1") == (10, 's', '1') && Look("--addheader") == (11, 'a', 'r');
    assert Look("--maxsize") == (9, 'm', 'e') && Look("--timeout") == (9, 't', 't');
    assert Look("--allowsizemismatch") == (19, 'a', 'h') && Look("--maxbytespersecond") == (19, 'm', 'd');
  }

  /** One more option: it is the one the flag belongs to, or the flag gets nothing from it. */
  lemma OneMoreOption(items: seq<Item>, condition: bool, item: Item, flag: string, before: seq<Option<string>>)
    requires Values(ArgsOf(items), flag) == before && (item.flag == flag ==> before == [])
    ensures Values(ArgsOf(items + When(condition, item)), flag)
      == if item.flag == flag then When(condition, ArgOf(item).value) else before
  {
    OneOption(items, condition, item, flag);
  }

  lemma FirstOption(item: Item, flag: string)
    ensures Values(ArgsOf([item]), flag) == When(flag == item.flag, ArgOf(item).value)
  {
    assert [] + When(true, item) == [item];
    OneOption([], true, item, flag);
  }

  /** Items with six different flags, the first always there. */
  lemma SixOptions(x: Item, cs: seq<bool>, xs: seq<Item>, flag: string)
    requires |cs| == |xs| == 5 && forall i :: 0 <= i < 5 ==> xs[i].flag != x.flag
    requires forall i, j :: 0 <= i < j < 5 ==> xs[i].flag != xs[j].flag
    ensures Values(ArgsOf([x] + When(cs[0], xs[0]) + When(cs[1], xs[1]) + When(cs[2], xs[2]) + When(cs[3], xs[3])
                          + When(cs[4], xs[4])), flag)
      == if flag == x.flag then [ArgOf(x).value]
         else if flag == xs[0].flag then When(cs[0], ArgOf(xs[0]).value)
         else if flag == xs[1].flag then When(cs[1], ArgOf(xs[1]).value)
         else if flag == xs[2].flag then When(cs[2], ArgOf(xs[2]).value)
         else if flag == xs[3].flag then When(cs[3], ArgOf(xs[3]).value)
         else if flag == xs[4].flag then When(cs[4], ArgOf(xs[4]).value)
         else []
  {
    var a := [x] + When(cs[0], xs[0]);
    var b := a + When(cs[1], xs[1]);
    var c := b + When(cs[2], xs[2]);
    var d := c + When(cs[3], xs[3]);
    FirstOption(x, flag);
    OneMoreOption([x], cs[0], xs[0], flag, Values(ArgsOf([x]), flag));
    OneMoreOption(a, cs[1], xs[1], flag, Values(ArgsOf(a), flag));
    OneMoreOption(b, cs[2], xs[2], flag, Values(ArgsOf(b), flag));
    OneMoreOption(c, cs[3], xs[3], flag, Values(ArgsOf(c), flag));
    OneMoreOption(d, cs[4], xs[4], flag, Values(ArgsOf(d), flag));
  }

  lemma OptionsSay(o: GlobalOptions, decimal: int -> string, flag: string)
    ensures Values(ArgsOf(OptionItems(o, decimal)), flag) == Asked(o, decimal, flag)
  {
    var cs := [o.addHeaders, o.maxSizeMb > 0, o.timeoutSeconds > 0, o.allowSizeMismatch, o.bandwidthMbit > 0];
    var xs := [Bare("--addheader"), SizeItem(o, decimal), TimeoutItem(o, decimal), Bare("--allowsizemismatch"),
               BandwidthItem(o, decimal)];
    OptionFlagsAre(o, decimal, xs);
    SixOptions(SslItem(o), cs, xs, flag);
  }

  lemma OptionFlagsAre(o: GlobalOptions, decimal: int -> string, xs: seq<Item>)
    requires xs == [Bare("--addheader"), SizeItem(o, decimal), TimeoutItem(o, decimal), Bare("--allowsizemismatch"),
                    BandwidthItem(o, decimal)]
    ensures forall i :: 0 <= i < 5 ==> xs[i].flag != SslItem(o).flag
    ensures forall i, j :: 0 <= i < j < 5 ==> xs[i].flag != xs[j].flag
  {
    OptionFlagsDiffer();
  }

  /** What a sync passes on, read by arity: for every flag, first what the options ask for, then the free text. */
  lemma OptionsAsAsked(o: GlobalOptions, decimal: int -> string, items: seq<Item>, flag: string)
    requires AllWellFormed(items)
    ensures Read(MeantAll(OptionItems(o, decimal)) + MeantAll(items)).Some?
    ensures Values(Read(MeantAll(OptionItems(o, decimal)) + MeantAll(items)).value, flag)
      == Asked(o, decimal, flag) + Values(ArgsOf(items), flag)
  {
    var own := OptionItems(o, decimal);
    OptionsWellFormed(o, decimal);
    ArgsOfItems(own);
    ArgsOfItems(items);
    WrittenAppend(ArgsOf(own), ArgsOf(items));
    ReadsBack(ArgsOf(own) + ArgsOf(items));
    ValuesAppend(ArgsOf(own), ArgsOf(items), flag);
    OptionsSay(o, decimal, flag);
  }

  lemma WordsAreDangerous(w: string)
    requires w in OPEN_WORDS || w in CLOSED_WORDS
    ensures Dashed(w) && w[2..] in DANGEROUS
  {
  }

  lemma WordsAreLower(w: string, i: nat)
    requires (w in OPEN_WORDS || w in CLOSED_WORDS) && i < |w|
    ensures Lower(w[i]) == w[i]
  {
  }

  /** The filter's pattern is at least as wide as the final scan's. */
  lemma CaughtIsDangerous(wordChar: char -> bool, s: string)
    requires Caught(wordChar, s)
    ensures Dangerous(s)
  {
    var w :| (w in OPEN_WORDS || w in CLOSED_WORDS) && w <= s;
    WordsAreDangerous(w);
    forall i | 0 <= i < |w[2..]| ensures Lower(s[2 + i]) == w[2..][i] {
      WordsAreLower(w, 2 + i);
      assert s[2 + i] == w[2 + i];
    }
    assert StartsLike(s, w[2..]);
  }

  lemma SameAt(w: string, s: string, i: nat)
    requires w <= s && i < |w|
    ensures w[i] == s[i]
  {
  }

  const WORD_HEADS: set<string> := {"del", "exp", "sea", "noe", "pip", "exe"}

  lemma PrefixHead(w: string, s: string)
    requires (w in OPEN_WORDS || w in CLOSED_WORDS) && w <= s
    ensures |s| >= 5 && [s[2], s[3], s[4]] in WORD_HEADS
  {
  }

  lemma OwnHead(flag: string)
    requires (flag in OWN_VALUED || flag in OWN_PLAIN) && flag != "--delete2"
    ensures |flag| >= 5 && [flag[2], flag[3], flag[4]] !in WORD_HEADS
  {
  }

  lemma Delete2NotCaught(wordChar: char -> bool)
    ensures !Caught(wordChar, "--delete2")
  {
    forall w | (w in OPEN_WORDS || w in CLOSED_WORDS) && w <= "--delete2" ensures false {
      SameAt(w, "--delete2", 3);
      SameAt(w, "--delete2", |w| - 1);
    }
  }

  lemma OwnFlagsNotCaught(wordChar: char -> bool, flag: string)
    requires flag in OWN_VALUED || flag in OWN_PLAIN
    ensures !Caught(wordChar, flag)
  {
    if flag == "--delete2" {
      Delete2NotCaught(wordChar);
    } else if Caught(wordChar, flag) {
      var w :| (w in OPEN_WORDS || w in CLOSED_WORDS) && w <= flag;
      PrefixHead(w, flag);
      OwnHead(flag);
    }
  }

  lemma ProperFlagNotCaught(wordChar: char -> bool, arg: Arg)
    requires Proper(arg)
    ensures !Caught(wordChar, arg.flag)
  {
    if Allowed(arg.flag) {
      AllowedIsHarmless(arg.flag);
      if Caught(wordChar, arg.flag) {
        CaughtIsDangerous(wordChar, arg.flag);
      }
    } else {
      OwnFlagsNotCaught(wordChar, arg.flag);
    }
  }

  ghost predicate ValuesClean(wordChar: char -> bool, args: seq<Arg>) {
    forall i :: 0 <= i < |args| && args[i].value.Some? ==> !Caught(wordChar, args[i].value.value)
  }

  predicate NoneBad(bad: string -> bool, tokens: seq<string>) {
    forall s :: s in tokens ==> !bad(s)
  }

  lemma {:induction false} OnlyValuesMatter(bad: string -> bool, args: seq<Arg>)
    requires forall i :: 0 <= i < |args| ==> !bad(args[i].flag)
    ensures NoneBad(bad, WrittenAll(args)) <==>
      forall i :: 0 <= i < |args| && args[i].value.Some? ==> !bad(args[i].value.value)
    decreases |args|
  {
    if args != [] {
      assert forall i :: 0 <= i < |args| - 1 ==> args[1..][i] == args[i + 1];
      OnlyValuesMatter(bad, args[1..]);
      assert NoneBad(bad, WrittenAll(args)) <==> NoneBad(bad, Written(args[0])) && NoneBad(bad, WrittenAll(args[1..]));
      assert NoneBad(bad, Written(args[0])) <==> (args[0].value.Some? ==> !bad(args[0].value.value)) by {
        assert args[0].value.Some? ==> Written(args[0])[1] == args[0].value.value;
      }
    }
  }

  lemma CleanConcat(wordChar: char -> bool, a: seq<string>, b: seq<string>)
    ensures Clean(wordChar, a + b) <==> Clean(wordChar, a) && Clean(wordChar, b)
  {
  }

  lemma CaughtIsDashed(wordChar: char -> bool, s: string)
    requires Caught(wordChar, s)
    ensures s != [] && s[0] == '-'
  {
    CaughtIsDangerous(wordChar, s);
  }

  lemma ProgramNotCaught(wordChar: char -> bool)
    ensures Clean(wordChar, [PROGRAM])
  {
    if Caught(wordChar, PROGRAM) {
      CaughtIsDashed(wordChar, PROGRAM);
    }
  }

  /** With accepted extra flags, the builder succeeds exactly when no value looks like a forbidden flag. */
  lemma {:induction false} BuildsExactly(wordChar: char -> bool, r: Request, decimal: int -> string,
                                         tokens: seq<string>, items: seq<Item>)
    requires SplitsInto(tokens, r.extra, items)
    ensures Clean(wordChar, Full(r, decimal)) <==> ValuesClean(wordChar, OwnArgs(r, decimal) + ArgsOf(items))
  {
    var args := OwnArgs(r, decimal) + ArgsOf(items);
    OwnArgsProper(r, decimal);
    ArgsOfItems(items);
    WrittenAppend(OwnArgs(r, decimal), ArgsOf(items));
    ProgramNotCaught(wordChar);
    CleanConcat(wordChar, [PROGRAM], WrittenAll(args));
    assert Full(r, decimal) == [PROGRAM] + WrittenAll(args);
    forall i | 0 <= i < |args| ensures !Caught(wordChar, args[i].flag) {
      ProperFlagNotCaught(wordChar, args[i]);
    }
    OnlyValuesMatter(s => Caught(wordChar, s), args);
  }

  /** An accepted flag list that makes every build fail. */
  lemma {:induction false} AcceptedYetRefused(wordChar: char -> bool, r: Request, decimal: int -> string)
    requires r.extra == ["--exclude", "--exec"]
    ensures Parse(r.extra) == Ok(r.extra) && !Clean(wordChar, Full(r, decimal))
  {
    var item := Separate("--exclude", "--exec");
    SplitIsAccepted(r.extra, r.extra, [item]);
    assert r.extra[1] in Full(r, decimal);
    assert "--exec" in CLOSED_WORDS;
    assert Caught(wordChar, "--exec");
  }
}
