/** The filter for extra imapsync flags, from the token list on. */
module Flags {
  import opened Wrappers
  import opened Texts

  /** Flags an administrator may add: those that take a value and those that do not. */
  const VALUED: set<string> := {
    "--exclude", "--include", "--folder", "--folderrec", "--subfolder2", "--maxsize", "--minsize", "--maxage",
    "--minage", "--useheader", "--regexmess", "--timeout", "--timeout1", "--timeout2", "--maxlinelength",
    "--sslargs1", "--maxbytespersecond"}

  const PLAIN: set<string> := {
    "--addheader", "--skipcrossduplicates", "--useuid", "--nosubscribe", "--subscribe", "--allowsizemismatch",
    "--nofoldersizes"}

  predicate Allowed(flag: string) {
    flag in VALUED || flag in PLAIN
  }

  /** What may not follow the two dashes. */
  const DANGEROUS: seq<string> := [
    "delete1", "expunge1", "delete1duplicates", "delete1emptyfolders", "noexpunge1", "search1",
    "pipemess", "pipemesscheck", "exec", "execafter", "execbefore",
    "host1", "host2", "user1", "user2", "passfile1", "passfile2", "password1", "password2",
    "tmpdir", "pidfile", "delete2"]

  predicate Dashed(token: string) {
    |token| >= 2 && token[0] == '-' && token[1] == '-'
  }

  predicate StartsLike(flag: string, word: string) {
    |flag| >= 2 + |word| && forall i :: 0 <= i < |word| ==> Lower(flag[2 + i]) == word[i]
  }

  predicate Dangerous(flag: string) {
    Dashed(flag) && exists w :: w in DANGEROUS && StartsLike(flag, w)
  }

  const HEADS: set<string> := {"dele", "expu", "noex", "sear", "pipe", "exec", "host", "user", "pass", "tmpd", "pidf"}

  function FlagHead(flag: string): string
    requires |flag| >= 6
  {
    [Lower(flag[2]), Lower(flag[3]), Lower(flag[4]), Lower(flag[5])]
  }

  lemma DangerousHeads(word: string)
    requires word in DANGEROUS
    ensures |word| >= 4 && [word[0], word[1], word[2], word[3]] in HEADS
  {
  }

  lemma SameHead(flag: string, word: string)
    requires |word| >= 4 && StartsLike(flag, word)
    ensures FlagHead(flag) == [word[0], word[1], word[2], word[3]]
  {
  }

  lemma ValuedHeads(flag: string)
    requires flag in VALUED
    ensures |flag| >= 6 && FlagHead(flag) !in HEADS
  {
  }

  lemma PlainHeads(flag: string)
    requires flag in PLAIN
    ensures |flag| >= 6 && FlagHead(flag) !in HEADS
  {
  }

  lemma AllowedSpelling(flag: string)
    requires Allowed(flag)
    ensures Dashed(flag) && '=' !in flag
  {
  }

  /** No flag of the allowlist is caught by the pattern that is tried before it. */
  lemma AllowedIsHarmless(flag: string)
    requires Allowed(flag)
    ensures !Dangerous(flag)
  {
    forall w | w in DANGEROUS ensures !StartsLike(flag, w) {
      DangerousHeads(w);
      if flag in VALUED {
        ValuedHeads(flag);
      } else {
        PlainHeads(flag);
      }
      if StartsLike(flag, w) {
        SameHead(flag, w);
      }
    }
  }

  // --- The parser ---------------------------------------------------------------------------

  datatype FlagError =
    | NotAFlag(token: string)
    | Forbidden(flag: string)
    | NotAllowed(flag: string)
    | NeedsValue(flag: string)
    | TakesNoValue(flag: string, given: string)

  type Parsed = Result<seq<string>, FlagError>

  /** A token as flag and inline value: everything up to the first `=`, and what follows it. */
  function Split(token: string): (string, Option<string>) {
    var flag := Before(token, '=');
    if |flag| < |token| then (flag, Some(token[|flag| + 1..])) else (token, None)
  }

  function Prepend(argv: seq<string>, rest: Parsed): Parsed {
    if rest.Ok? then Ok(argv + rest.value) else rest
  }

  /** One turn of the loop: it takes `count` tokens and appends `argv`, or fails. */
  datatype Turn = Take(count: nat, argv: seq<string>) | Fail(error: FlagError)

  function TakeTurn(tokens: seq<string>): (turn: Turn)
    requires tokens != []
    ensures turn.Take? ==> 0 < turn.count <= |tokens|
  {
    var (flag, given) := Split(tokens[0]);
    if !Dashed(tokens[0]) then Fail(NotAFlag(tokens[0]))
    else if Dangerous(flag) then Fail(Forbidden(flag))
    else if !Allowed(flag) then Fail(NotAllowed(flag))
    else if flag in VALUED && given.Some? then Take(1, [flag, given.value])
    else if flag in VALUED then (if |tokens| < 2 then Fail(NeedsValue(flag)) else Take(2, [flag, tokens[1]]))
    else if given.Some? then Fail(TakesNoValue(flag, given.value))
    else Take(1, [flag])
  }

  function Parse(tokens: seq<string>): Parsed
    decreases |tokens|
  {
    if tokens == [] then Ok([])
    else
      var turn := TakeTurn(tokens);
      if turn.Fail? then Error(turn.error) else Prepend(turn.argv, Parse(tokens[turn.count..]))
  }

  method ValidateTokens(tokens: seq<string>) returns (r: Parsed)
    ensures r == Parse(tokens)
  {
    var argv: seq<string> := [];
    var i := 0;
    assert tokens[0..] == tokens;
    PrependNothing(Parse(tokens));
    while i < |tokens|
      invariant 0 <= i <= |tokens|
      invariant Parse(tokens) == Prepend(argv, Parse(tokens[i..]))
    {
      ghost var turn := TakeTurn(tokens[i..]);
      ghost var before, start := argv, i;
      TurnAdvances(tokens, i, argv);
      if !Dashed(tokens[i]) {
        return Error(NotAFlag(tokens[i]));
      }
      var (flag, given) := Split(tokens[i]);
      if Dangerous(flag) {
        return Error(Forbidden(flag));
      }
      if !Allowed(flag) {
        return Error(NotAllowed(flag));
      }
      argv := argv + [flag];
      if flag in VALUED {
        if given.Some? {
          argv := argv + [given.value];
        } else {
          i := i + 1;
          if i >= |tokens| {
            return Error(NeedsValue(flag));
          }
          argv := argv + [tokens[i]];
        }
      } else if given.Some? {
        return Error(TakesNoValue(flag, given.value));
      }
      i := i + 1;
      assert turn.Take? && i == start + turn.count && argv == before + turn.argv;
    }
    assert tokens[i..] == [] && argv + [] == argv;
    r := Ok(argv);
  }

  lemma PrependNothing(p: Parsed)
    ensures Prepend([], p) == p
  {
    if p.Ok? {
      assert [] + p.value == p.value;
    }
  }

  lemma PrependTwice(a: seq<string>, b: seq<string>, rest: Parsed)
    ensures Prepend(a, Prepend(b, rest)) == Prepend(a + b, rest)
  {
    if rest.Ok? {
      assert a + (b + rest.value) == a + b + rest.value;
    }
  }

  lemma TurnAdvances(tokens: seq<string>, i: nat, argv: seq<string>)
    requires i < |tokens|
    ensures var turn := TakeTurn(tokens[i..]);
      if turn.Fail? then Prepend(argv, Parse(tokens[i..])) == Error(turn.error)
      else Prepend(argv, Parse(tokens[i..])) == Prepend(argv + turn.argv, Parse(tokens[i + turn.count..]))
  {
    var turn := TakeTurn(tokens[i..]);
    if turn.Take? {
      assert tokens[i..][turn.count..] == tokens[i + turn.count..];
      PrependTwice(argv, turn.argv, Parse(tokens[i + turn.count..]));
    }
  }

  // --- The language it accepts ----------------------------------------------------------------

  datatype Item = Bare(flag: string) | Inline(flag: string, value: string) | Separate(flag: string, value: string)

  predicate WellFormed(item: Item) {
    if item.Bare? then item.flag in PLAIN else item.flag in VALUED
  }

  predicate AllWellFormed(items: seq<Item>) {
    forall i :: 0 <= i < |items| ==> WellFormed(items[i])
  }

  function Spelled(item: Item): seq<string> {
    match item
    case Bare(flag) => [flag]
    case Inline(flag, value) => [flag + "=" + value]
    case Separate(flag, value) => [flag, value]
  }

  function Meant(item: Item): seq<string> {
    if item.Bare? then [item.flag] else [item.flag, item.value]
  }

  function SpelledAll(items: seq<Item>): seq<string> {
    if items == [] then [] else Spelled(items[0]) + SpelledAll(items[1..])
  }

  function MeantAll(items: seq<Item>): seq<string> {
    if items == [] then [] else Meant(items[0]) + MeantAll(items[1..])
  }

  lemma SplitPlain(flag: string)
    requires '=' !in flag
    ensures Split(flag) == (flag, None)
  {
  }

  lemma SplitInline(flag: string, value: string)
    requires '=' !in flag
    ensures Split(flag + "=" + value) == (flag, Some(value))
  {
    BeforeFirst(flag, '=', value);
    assert (flag + "=" + value)[|flag| + 1..] == value;
  }

  lemma SplitJoins(token: string)
    ensures var (flag, given) := Split(token); token == if given.Some? then flag + "=" + given.value else flag
  {
  }

  lemma PlainIsNotValued(flag: string)
    ensures !(flag in PLAIN && flag in VALUED)
  {
  }

  lemma ItemIsOneTurn(item: Item, rest: seq<string>)
    requires WellFormed(item)
    ensures TakeTurn(Spelled(item) + rest) == Take(|Spelled(item)|, Meant(item))
  {
    AllowedSpelling(item.flag);
    AllowedIsHarmless(item.flag);
    PlainIsNotValued(item.flag);
    if item.Inline? {
      SplitInline(item.flag, item.value);
    } else {
      SplitPlain(item.flag);
    }
  }

  lemma {:induction false} ParseItems(items: seq<Item>, rest: seq<string>)
    requires AllWellFormed(items)
    ensures Parse(SpelledAll(items) + rest) == Prepend(MeantAll(items), Parse(rest))
    decreases |items|
  {
    if items == [] {
      assert SpelledAll(items) + rest == rest;
      PrependNothing(Parse(rest));
    } else {
      var others := SpelledAll(items[1..]) + rest;
      var tokens := Spelled(items[0]) + others;
      assert SpelledAll(items) + rest == tokens;
      ItemIsOneTurn(items[0], others);
      assert tokens[|Spelled(items[0])|..] == others;
      ParseItems(items[1..], rest);
      PrependTwice(Meant(items[0]), MeantAll(items[1..]), Parse(rest));
    }
  }

  lemma TurnIsOneItem(tokens: seq<string>) returns (item: Item)
    requires tokens != [] && TakeTurn(tokens).Take?
    ensures WellFormed(item) && TakeTurn(tokens) == Take(|Spelled(item)|, Meant(item))
    ensures tokens == Spelled(item) + tokens[|Spelled(item)|..]
  {
    var (flag, given) := Split(tokens[0]);
    SplitJoins(tokens[0]);
    PlainIsNotValued(flag);
    if flag in PLAIN {
      item := Bare(flag);
      FirstAndRest(tokens);
    } else if given.Some? {
      item := Inline(flag, given.value);
      FirstAndRest(tokens);
    } else {
      item := Separate(flag, tokens[1]);
      TwoAndRest(tokens);
    }
  }

  lemma FirstAndRest(tokens: seq<string>)
    requires |tokens| >= 1
    ensures tokens == [tokens[0]] + tokens[1..]
  {
  }

  lemma TwoAndRest(tokens: seq<string>)
    requires |tokens| >= 2
    ensures tokens == [tokens[0], tokens[1]] + tokens[2..]
  {
  }

  lemma {:induction false} ItemsOfAccepted(tokens: seq<string>) returns (items: seq<Item>)
    requires Parse(tokens).Ok?
    ensures AllWellFormed(items) && SpelledAll(items) == tokens && MeantAll(items) == Parse(tokens).value
    decreases |tokens|
  {
    if tokens == [] {
      items := [];
    } else {
      var first := TurnIsOneItem(tokens);
      var others := ItemsOfAccepted(tokens[|Spelled(first)|..]);
      items := [first] + others;
      assert items[1..] == others;
    }
  }

  ghost predicate SplitsInto(tokens: seq<string>, argv: seq<string>, items: seq<Item>) {
    AllWellFormed(items) && SpelledAll(items) == tokens && MeantAll(items) == argv
  }

  lemma SplitIsAccepted(tokens: seq<string>, argv: seq<string>, items: seq<Item>)
    requires SplitsInto(tokens, argv, items)
    ensures Parse(tokens) == Ok(argv)
  {
    ParseItems(items, []);
    assert SpelledAll(items) + [] == tokens;
    assert MeantAll(items) + [] == argv;
  }

  /** Accepted are exactly the lists that split into allowlisted items, and the items come back in order. */
  lemma AcceptsExactly(tokens: seq<string>, argv: seq<string>)
    ensures Parse(tokens) == Ok(argv) <==> exists items :: SplitsInto(tokens, argv, items)
  {
    if Parse(tokens) == Ok(argv) {
      var items := ItemsOfAccepted(tokens);
      assert SplitsInto(tokens, argv, items);
    } else {
      forall items ensures !SplitsInto(tokens, argv, items) {
        if SplitsInto(tokens, argv, items) {
          SplitIsAccepted(tokens, argv, items);
        }
      }
    }
  }

  function Canonical(items: seq<Item>): seq<Item> {
    seq(|items|, i requires 0 <= i < |items| =>
      if items[i].Inline? then Separate(items[i].flag, items[i].value) else items[i])
  }

  lemma {:induction false} CanonicalSpelling(items: seq<Item>)
    requires AllWellFormed(items)
    ensures AllWellFormed(Canonical(items))
    ensures SpelledAll(Canonical(items)) == MeantAll(items) == MeantAll(Canonical(items))
    decreases |items|
  {
    if items != [] {
      CanonicalSpelling(items[1..]);
      assert Canonical(items)[1..] == Canonical(items[1..]);
    }
  }

  lemma OutputParses(items: seq<Item>)
    requires AllWellFormed(items)
    ensures Parse(MeantAll(items)) == Ok(MeantAll(items))
  {
    CanonicalSpelling(items);
    SplitIsAccepted(MeantAll(items), MeantAll(items), Canonical(items));
  }

  /** The output of an accepted list is accepted as it is. */
  lemma {:induction false} Idempotent(tokens: seq<string>)
    requires Parse(tokens).Ok?
    ensures Parse(Parse(tokens).value) == Parse(tokens)
  {
    var items := ItemsOfAccepted(tokens);
    OutputParses(items);
  }

  /** An accepted list contributes its own flags whatever follows it, and the rest is judged by itself. */
  lemma {:induction false} Concatenation(a: seq<string>, b: seq<string>)
    requires Parse(a).Ok?
    ensures Parse(a + b) == Prepend(Parse(a).value, Parse(b))
  {
    var items := ItemsOfAccepted(a);
    ParseItems(items, b);
  }

  /** Nothing that follows repairs a rejected list, except the value its last flag lacks. */
  lemma {:induction false} RejectionStands(a: seq<string>, b: seq<string>)
    requires Parse(a).Error? && !Parse(a).error.NeedsValue?
    ensures Parse(a + b) == Parse(a)
    decreases |a|
  {
    var turn := TakeTurn(a);
    TurnKept(a, b);
    if turn.Take? {
      RejectionStands(a[turn.count..], b);
      assert (a + b)[turn.count..] == a[turn.count..] + b;
    }
  }

  lemma TurnKept(a: seq<string>, b: seq<string>)
    requires a != [] && !(TakeTurn(a).Fail? && TakeTurn(a).error.NeedsValue?)
    ensures TakeTurn(a + b) == TakeTurn(a)
  {
  }

  // --- What is rejected, and why ------------------------------------------------------------------

  /** The flag, whatever its case, begins like a word that mutates the source or runs code. */
  ghost predicate LooksDangerous(flag: string) {
    "--" <= flag && exists w :: w in DANGEROUS && LooksLike(flag, w)
  }

  predicate LooksLike(flag: string, w: string) {
    |flag| >= |w| + 2 && forall i :: 0 <= i < |w| ==> Lower(flag[i + 2]) == w[i]
  }

  /** The first token is at fault, for this reason. */
  ghost predicate AtFault(tokens: seq<string>, e: FlagError) {
    && tokens != []
    && var flag := Before(tokens[0], '=');
    match e
    case NotAFlag(token) => token == tokens[0] && !("--" <= tokens[0])
    case Forbidden(f) => f == flag && "--" <= tokens[0] && LooksDangerous(flag)
    case NotAllowed(f) => f == flag && "--" <= tokens[0] && !LooksDangerous(flag) && flag !in VALUED && flag !in PLAIN
    case NeedsValue(f) => f in VALUED && tokens == [f]
    case TakesNoValue(f, given) => f in PLAIN && tokens[0] == f + "=" + given
  }

  lemma DangerousLooks(flag: string)
    ensures Dangerous(flag) <==> LooksDangerous(flag)
    ensures Dashed(flag) <==> "--" <= flag
  {
    assert Dashed(flag) <==> "--" <= flag;
    forall w ensures StartsLike(flag, w) <==> LooksLike(flag, w) {
    }
  }

  lemma NotBoth(flag: string)
    requires Allowed(flag)
    ensures "--" <= flag && '=' !in flag && !LooksDangerous(flag)
  {
    AllowedSpelling(flag);
    AllowedIsHarmless(flag);
    DangerousLooks(flag);
  }

  lemma FaultOfTurn(tokens: seq<string>, e: FlagError)
    requires tokens != []
    ensures TakeTurn(tokens) == Fail(e) ==> AtFault(tokens, e)
  {
    var (flag, given) := Split(tokens[0]);
    SplitJoins(tokens[0]);
    DangerousLooks(tokens[0]);
    DangerousLooks(flag);
    if |tokens| == 1 {
      assert tokens == [tokens[0]];
    }
  }

  lemma TurnLacksValue(f: string)
    requires f in VALUED
    ensures TakeTurn([f]) == Fail(NeedsValue(f))
  {
    NotBoth(f);
    DangerousLooks(f);
    SplitPlain(f);
  }

  lemma TurnGivenValue(tokens: seq<string>, f: string, given: string)
    requires f in PLAIN && tokens != [] && tokens[0] == f + "=" + given
    ensures TakeTurn(tokens) == Fail(TakesNoValue(f, given))
  {
    NotBoth(f);
    PlainIsNotValued(f);
    DangerousLooks(f);
    SplitInline(f, given);
    assert tokens[0][..|f|] == f;
  }

  lemma TurnNotPassed(tokens: seq<string>, e: FlagError)
    requires AtFault(tokens, e) && !e.NeedsValue? && !e.TakesNoValue?
    ensures TakeTurn(tokens) == Fail(e)
  {
    DangerousLooks(tokens[0]);
    DangerousLooks(Before(tokens[0], '='));
    SplitBefore(tokens[0]);
  }

  lemma SplitBefore(token: string)
    ensures Split(token).0 == Before(token, '=')
  {
  }

  lemma TurnOfFault(tokens: seq<string>, e: FlagError)
    requires AtFault(tokens, e)
    ensures TakeTurn(tokens) == Fail(e)
  {
    match e
    case NeedsValue(f) => TurnLacksValue(f);
    case TakesNoValue(f, given) => TurnGivenValue(tokens, f, given);
    case _ => TurnNotPassed(tokens, e);
  }

  /** A list is rejected with an error exactly if it is some allowlisted items and then a token at fault for it. */
  lemma RejectsExactly(tokens: seq<string>, e: FlagError)
    ensures Parse(tokens) == Error(e) <==>
      exists items, rest :: AllWellFormed(items) && AtFault(rest, e) && tokens == SpelledAll(items) + rest
  {
    if Parse(tokens) == Error(e) {
      var items, rest := FaultFound(tokens, e);
      assert tokens == SpelledAll(items) + rest;
    }
    forall items, rest | AllWellFormed(items) && AtFault(rest, e) && tokens == SpelledAll(items) + rest
      ensures Parse(tokens) == Error(e)
    {
      TurnOfFault(rest, e);
      ParseItems(items, rest);
    }
  }

  lemma {:induction false} FaultFound(tokens: seq<string>, e: FlagError) returns (items: seq<Item>, rest: seq<string>)
    requires Parse(tokens) == Error(e)
    ensures AllWellFormed(items) && AtFault(rest, e) && tokens == SpelledAll(items) + rest
    decreases |tokens|
  {
    if TakeTurn(tokens).Fail? {
      items, rest := [], tokens;
      FaultOfTurn(tokens, e);
    } else {
      var first := TurnIsOneItem(tokens);
      var others: seq<Item>;
      others, rest := FaultFound(tokens[|Spelled(first)|..], e);
      items := [first] + others;
      FirstSpelled(first, others, rest);
    }
  }

  lemma FirstSpelled(first: Item, others: seq<Item>, rest: seq<string>)
    requires WellFormed(first) && AllWellFormed(others)
    ensures AllWellFormed([first] + others)
    ensures SpelledAll([first] + others) + rest == Spelled(first) + (SpelledAll(others) + rest)
  {
    assert ([first] + others)[1..] == others;
  }

  // --- The global options ------------------------------------------------------------------------

  /** `custom` is the token list of the free-text field. */
  datatype GlobalOptions = GlobalOptions(verifySsl: bool, addHeaders: bool, maxSizeMb: int, timeoutSeconds: int,
                                         allowSizeMismatch: bool, bandwidthMbit: int, custom: seq<string>)

  function SslItem(o: GlobalOptions): Item {
    Separate("--sslargs1", if o.verifySsl then "SSL_verify_mode=1" else "SSL_verify_mode=0")
  }

  function SizeItem(o: GlobalOptions, decimal: int -> string): Item {
    Separate("--maxsize", decimal(o.maxSizeMb * 1024 * 1024))
  }

  function TimeoutItem(o: GlobalOptions, decimal: int -> string): Item {
    Separate("--timeout", decimal(o.timeoutSeconds))
  }

  /** From Mbit/s to bytes per second. */
  function BandwidthItem(o: GlobalOptions, decimal: int -> string): Item {
    Separate("--maxbytespersecond", decimal(o.bandwidthMbit * 125000))
  }

  function OptionItems(o: GlobalOptions, decimal: int -> string): seq<Item> {
    [SslItem(o)] + When(o.addHeaders, Bare("--addheader")) + When(o.maxSizeMb > 0, SizeItem(o, decimal))
    + When(o.timeoutSeconds > 0, TimeoutItem(o, decimal)) + When(o.allowSizeMismatch, Bare("--allowsizemismatch"))
    + When(o.bandwidthMbit > 0, BandwidthItem(o, decimal))
  }

  lemma {:induction false} MeantAppend(items: seq<Item>, more: seq<Item>)
    ensures MeantAll(items + more) == MeantAll(items) + MeantAll(more)
    decreases |items|
  {
    if items == [] {
      assert items + more == more;
    } else {
      MeantAppend(items[1..], more);
      assert (items + more)[1..] == items[1..] + more;
    }
  }

  lemma MeantWhen(items: seq<Item>, condition: bool, item: Item)
    ensures MeantAll(items + When(condition, item)) ==
      if condition then MeantAll(items) + Meant(item) else MeantAll(items)
  {
    MeantAppend(items, When(condition, item));
    assert Meant(item) + [] == Meant(item);
    assert MeantAll(items) + [] == MeantAll(items);
  }

  method BuildGlobalFlags(o: GlobalOptions, decimal: int -> string) returns (r: Parsed)
    ensures r == Prepend(MeantAll(OptionItems(o, decimal)), Parse(o.custom))
  {
    var argv := BuildStructured(o, decimal);
    var custom := ValidateTokens(o.custom);
    r := Prepend(argv, custom);
  }

  method BuildStructured(o: GlobalOptions, decimal: int -> string) returns (argv: seq<string>)
    ensures argv == MeantAll(OptionItems(o, decimal))
  {
    argv := [];
    if o.verifySsl {
      argv := argv + ["--sslargs1", "SSL_verify_mode=1"];
    } else {
      argv := argv + ["--sslargs1", "SSL_verify_mode=0"];
    }
    ghost var items := [SslItem(o)];
    assert argv == MeantAll(items);
    MeantWhen(items, o.addHeaders, Bare("--addheader"));
    items := items + When(o.addHeaders, Bare("--addheader"));
    if o.addHeaders {
      argv := argv + ["--addheader"];
    }
    MeantWhen(items, o.maxSizeMb > 0, SizeItem(o, decimal));
    items := items + When(o.maxSizeMb > 0, SizeItem(o, decimal));
    if o.maxSizeMb > 0 {
      argv := argv + ["--maxsize", decimal(o.maxSizeMb * 1024 * 1024)];
    }
    MeantWhen(items, o.timeoutSeconds > 0, TimeoutItem(o, decimal));
    items := items + When(o.timeoutSeconds > 0, TimeoutItem(o, decimal));
    if o.timeoutSeconds > 0 {
      argv := argv + ["--timeout", decimal(o.timeoutSeconds)];
    }
    MeantWhen(items, o.allowSizeMismatch, Bare("--allowsizemismatch"));
    items := items + When(o.allowSizeMismatch, Bare("--allowsizemismatch"));
    if o.allowSizeMismatch {
      argv := argv + ["--allowsizemismatch"];
    }
    MeantWhen(items, o.bandwidthMbit > 0, BandwidthItem(o, decimal));
    if o.bandwidthMbit > 0 {
      argv := argv + ["--maxbytespersecond", decimal(o.bandwidthMbit * 125000)];
    }
  }

  lemma WellFormedWhen(items: seq<Item>, condition: bool, item: Item)
    requires AllWellFormed(items) && WellFormed(item)
    ensures AllWellFormed(items + When(condition, item))
  {
  }

  lemma OptionsWellFormed(o: GlobalOptions, decimal: int -> string)
    ensures AllWellFormed(OptionItems(o, decimal))
  {
    var a := [SslItem(o)] + When(o.addHeaders, Bare("--addheader"));
    var b := a + When(o.maxSizeMb > 0, SizeItem(o, decimal));
    var c := b + When(o.timeoutSeconds > 0, TimeoutItem(o, decimal));
    var d := c + When(o.allowSizeMismatch, Bare("--allowsizemismatch"));
    EachWellFormed(o, decimal);
    WellFormedWhen([SslItem(o)], o.addHeaders, Bare("--addheader"));
    WellFormedWhen(a, o.maxSizeMb > 0, SizeItem(o, decimal));
    WellFormedWhen(b, o.timeoutSeconds > 0, TimeoutItem(o, decimal));
    WellFormedWhen(c, o.allowSizeMismatch, Bare("--allowsizemismatch"));
    WellFormedWhen(d, o.bandwidthMbit > 0, BandwidthItem(o, decimal));
  }

  lemma EachWellFormed(o: GlobalOptions, decimal: int -> string)
    ensures WellFormed(SslItem(o)) && WellFormed(SizeItem(o, decimal)) && WellFormed(TimeoutItem(o, decimal))
    ensures WellFormed(BandwidthItem(o, decimal)) && WellFormed(Bare("--addheader"))
    ensures WellFormed(Bare("--allowsizemismatch"))
  {
  }

  /** What a sync passes on: global options, their free text, then the mailbox's own free text. If both texts
      are accepted, the joined list is accepted, as it is. */
  lemma {:induction false} JoinedFlagsAccepted(o: GlobalOptions, decimal: int -> string, mailboxTokens: seq<string>)
    requires Parse(o.custom).Ok? && Parse(mailboxTokens).Ok?
    ensures var joined := MeantAll(OptionItems(o, decimal)) + Parse(o.custom).value + Parse(mailboxTokens).value;
      Parse(joined) == Ok(joined)
  {
    var items, custom, own := OptionItems(o, decimal), Parse(o.custom).value, Parse(mailboxTokens).value;
    OptionsWellFormed(o, decimal);
    OutputParses(items);
    Idempotent(o.custom);
    Idempotent(mailboxTokens);
    Concatenation(MeantAll(items), custom);
    Concatenation(MeantAll(items) + custom, own);
  }
}
