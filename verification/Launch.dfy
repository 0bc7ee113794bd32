/**
 The command line (crates/app/src/main.rs): the parser, and the arguments that
 start a foreground window on a request. Arguments are bytes; only option names
 and text operands must be UTF-8.
 */
module Launch {
  import opened Wrappers
  import opened Text

  datatype Provider = Github | Gitlab | Entire | Other(name: Bytes)

  datatype Request =
    | Fixture(id: Bytes)
    | Patch(path: Bytes)
    | Remote(provider: Provider, address: Bytes)
    | LocalGit(root: Bytes, base: Bytes, head: Bytes)
    | LocalIndex(path: Bytes)
    | LocalWorktree(path: Bytes)
    | Resume(id: Bytes)

  datatype Failure = Unknown | MissingValue | NotUtf8 | SecondSource | NotTrail | NotCompare | NotDetected | HalfProbe
    | NotJson | NoFlag

  /**
   What the command line asks of other code: the Trail parser, the provider whose parser takes an
   address as a compare, and what a lone argument names.
   */
  datatype Env = Env(
    isTrail: Bytes -> bool,
    compareOf: Bytes -> Option<Provider>,
    detect: Bytes -> Option<Request>,
    fitsJson: Option<Request> -> bool)

  datatype Flag =
    | FFixture | FPatch | FPr | FGit | FStaged | FWorktree | FResume | FBase | FHead | FState
    | FGithubWrites | FGitlabWrites | FMr | FTrail | FCompare | FInspect | FForeground | FJson
    | FFont | FTheme | FProbe | FProbeOutput

  function Name(f: Flag): Bytes {
    match f
    case FFixture => "--fixture"
    case FPatch => "--patch"
    case FPr => "--pr"
    case FGit => "--git"
    case FStaged => "--staged"
    case FWorktree => "--worktree"
    case FResume => "--resume"
    case FBase => "--base"
    case FHead => "--head"
    case FState => "--state-dir"
    case FGithubWrites => "--allow-github-writes"
    case FGitlabWrites => "--allow-gitlab-writes"
    case FMr => "--mr"
    case FTrail => "--trail"
    case FCompare => "--compare"
    case FInspect => "--inspect"
    case FForeground => "--foreground"
    case FJson => "--json"
    case FFont => "--font"
    case FTheme => "--theme"
    case FProbe => "--probe"
    case FProbeOutput => "--probe-output"
  }

  function FlagOf(arg: Bytes): Option<Flag> {
    if arg == "--fixture" then Some(FFixture)
    else if arg == "--patch" then Some(FPatch)
    else if arg == "--pr" then Some(FPr)
    else if arg == "--git" then Some(FGit)
    else if arg == "--staged" then Some(FStaged)
    else if arg == "--worktree" then Some(FWorktree)
    else if arg == "--resume" then Some(FResume)
    else if arg == "--base" then Some(FBase)
    else if arg == "--head" then Some(FHead)
    else if arg == "--state-dir" then Some(FState)
    else if arg == "--allow-github-writes" then Some(FGithubWrites)
    else if arg == "--allow-gitlab-writes" then Some(FGitlabWrites)
    else if arg == "--mr" then Some(FMr)
    else if arg == "--trail" then Some(FTrail)
    else if arg == "--compare" then Some(FCompare)
    else if arg == "--inspect" then Some(FInspect)
    else if arg == "--foreground" then Some(FForeground)
    else if arg == "--json" then Some(FJson)
    else if arg == "--font" then Some(FFont)
    else if arg == "--theme" then Some(FTheme)
    else if arg == "--probe" then Some(FProbe)
    else if arg == "--probe-output" then Some(FProbeOutput)
    else None
  }

  lemma {:induction false} NameIsFlag(f: Flag)
    ensures FlagOf(Name(f)) == Some(f)
  {
    var name := Name(f);
    assert |name| >= 4;
    assert name[2] == name[2] && name[3] == name[3];
  }

  // ----- the parser -----

  /** The parser's variables. */
  datatype State = State(
    source: Option<Request>,
    stateDir: Option<Bytes>,
    githubWrites: bool,
    gitlabWrites: bool,
    inspect: bool,
    positional: bool,
    foreground: bool,
    json: bool,
    font: Option<Bytes>,
    theme: Option<Bytes>,
    base: Bytes,
    head: Bytes,
    probe: Option<Bytes>,
    probeOutput: Option<Bytes>)

  const INITIAL := State(None, None, false, false, false, false, false, false, None, None, "main", "HEAD", None, None)

  predicate TakesValue(f: Flag) {
    !(f.FGithubWrites? || f.FGitlabWrites? || f.FInspect? || f.FForeground? || f.FJson?)
  }

  /** Operands that name files stay as they are; the others are text. */
  predicate TakesText(f: Flag) {
    TakesValue(f) && !(f.FPatch? || f.FGit? || f.FStaged? || f.FWorktree? || f.FState? || f.FProbe? || f.FProbeOutput?)
  }

  function WithSource(s: State, request: Request): Result<State, Failure> {
    if s.source.Some? then Err(SecondSource) else Ok(s.(source := Some(request)))
  }

  function Switch(s: State, f: Flag): State {
    match f
    case FGithubWrites => s.(githubWrites := true)
    case FGitlabWrites => s.(gitlabWrites := true)
    case FInspect => s.(inspect := true)
    case FForeground => s.(foreground := true)
    case FJson => s.(json := true)
    case _ => s
  }

  function Operand(env: Env, s: State, f: Flag, value: Bytes): Result<State, Failure> {
    if TakesText(f) && !Utf8(value) then Err(NotUtf8)
    else
      match f
      case FFixture => WithSource(s, Fixture(value))
      case FPatch => WithSource(s, Patch(value))
      case FPr => WithSource(s, Remote(Github, value))
      case FMr => WithSource(s, Remote(Gitlab, value))
      case FGit => WithSource(s, LocalGit(value, "", ""))
      case FStaged => WithSource(s, LocalIndex(value))
      case FWorktree => WithSource(s, LocalWorktree(value))
      case FResume => WithSource(s, Resume(value))
      case FTrail => if env.isTrail(value) then WithSource(s, Remote(Entire, value)) else Err(NotTrail)
      case FCompare =>
        if env.compareOf(value).Some? then WithSource(s, Remote(env.compareOf(value).value, value)) else Err(NotCompare)
      case FBase => Ok(s.(base := value))
      case FHead => Ok(s.(head := value))
      case FState => Ok(s.(stateDir := Some(value)))
      case FFont => Ok(s.(font := Some(value)))
      case FTheme => Ok(s.(theme := Some(value)))
      case FProbe => Ok(s.(probe := Some(value)))
      case FProbeOutput => Ok(s.(probeOutput := Some(value)))
      case _ => Ok(s)
  }

  function Positional(s: State, arg: Bytes): Result<State, Failure> {
    if arg != [] && arg[0] == '-' then Err(Unknown) else WithSource(s.(positional := true), Patch(arg))
  }

  /** All arguments, from the left. */
  function Read(env: Env, s: State, args: seq<Bytes>): Result<State, Failure>
    decreases |args|
  {
    if args == [] then Ok(s)
    else
      var f := FlagOf(args[0]);
      if f.None? then
        var next := Positional(s, args[0]);
        if next.Err? then next else Read(env, next.value, args[1..])
      else if !TakesValue(f.value) then Read(env, Switch(s, f.value), args[1..])
      else if |args| == 1 then Err(MissingValue)
      else
        var next := Operand(env, s, f.value, args[1]);
        if next.Err? then next else Read(env, next.value, args[2..])
  }

  datatype Options = Options(
    request: Option<Request>,
    stateDir: Option<Bytes>,
    githubWrites: bool,
    gitlabWrites: bool,
    inspect: bool,
    foreground: bool,
    json: bool,
    font: Option<Bytes>,
    theme: Option<Bytes>,
    probe: Option<Bytes>,
    probeOutput: Option<Bytes>)

  /** What a lone argument is taken for depends on what is there. */
  function Detected(env: Env, s: State): Option<Request> {
    if s.source.Some? && s.source.value.Patch? && s.positional then env.detect(s.source.value.path) else s.source
  }

  function WithRefs(request: Option<Request>, s: State): Option<Request> {
    if request.Some? && request.value.LocalGit? then Some(LocalGit(request.value.root, s.base, s.head)) else request
  }

  function Finish(env: Env, s: State): Result<Options, Failure> {
    var request := WithRefs(Detected(env, s), s);
    if s.source.Some? && request.None? then Err(NotDetected)
    else if s.probe.Some? != s.probeOutput.Some? then Err(HalfProbe)
    else if s.json && !env.fitsJson(request) then Err(NotJson)
    else Ok(Options(request, s.stateDir, s.githubWrites, s.gitlabWrites, s.inspect, s.foreground, s.json,
      s.font, s.theme, s.probe, s.probeOutput))
  }

  function Parsed(env: Env, args: seq<Bytes>): Result<Options, Failure> {
    var s := Read(env, INITIAL, args);
    if s.Err? then Err(s.error) else Finish(env, s.value)
  }

  /** The loop over the arguments. */
  method Parse(env: Env, args: seq<Bytes>) returns (r: Result<Options, Failure>)
    ensures r == Parsed(env, args)
  {
    var s := INITIAL;
    var i := 0;
    assert args[0..] == args;
    while i < |args|
      invariant i <= |args|
      invariant Read(env, INITIAL, args) == Read(env, s, args[i..])
    {
      var f := FlagOf(args[i]);
      assert args[i..][1..] == args[i + 1..];
      if f.None? {
        var next := Positional(s, args[i]);
        if next.Err? {
          return Err(next.error);
        }
        s := next.value;
        i := i + 1;
      } else if !TakesValue(f.value) {
        s := Switch(s, f.value);
        i := i + 1;
      } else {
        if i + 1 == |args| {
          return Err(MissingValue);
        }
        assert args[i..][2..] == args[i + 2..];
        var next := Operand(env, s, f.value, args[i + 1]);
        if next.Err? {
          return Err(next.error);
        }
        s := next.value;
        i := i + 2;
      }
    }
    return Finish(env, s);
  }

  // ----- the printer -----

  /** An option, or an argument without one; only options are printed. */
  datatype Item = Bare(flag: Flag) | With(flag: Flag, value: Bytes) | Lone(value: Bytes)

  function WordsOf(item: Item): seq<Bytes> {
    match item
    case Bare(f) => [Name(f)]
    case With(f, value) => [Name(f), value]
    case Lone(value) => [value]
  }

  function Words(items: seq<Item>): seq<Bytes> {
    if items == [] then [] else WordsOf(items[0]) + Words(items[1..])
  }

  function RemoteFlag(env: Env, provider: Provider, address: Bytes): Option<Flag> {
    if provider.Entire? then Some(FTrail)
    else if env.compareOf(address).Some? then Some(FCompare)
    else if provider.Github? then Some(FPr)
    else if provider.Gitlab? then Some(FMr)
    else None
  }

  function SourceItems(env: Env, request: Option<Request>): Option<seq<Item>> {
    match request
    case None => Some([])
    case Some(Fixture(id)) => Some([With(FFixture, id)])
    case Some(Patch(path)) => Some([With(FPatch, path)])
    case Some(Remote(provider, address)) =>
      var f := RemoteFlag(env, provider, address);
      if f.None? then None else Some([With(f.value, address)])
    case Some(LocalGit(root, base, head)) => Some([With(FGit, root), With(FBase, base), With(FHead, head)])
    case Some(LocalIndex(path)) => Some([With(FStaged, path)])
    case Some(LocalWorktree(path)) => Some([With(FWorktree, path)])
    case Some(Resume(id)) => Some([With(FResume, id)])
  }

  function Maybe(item: Item, present: bool): seq<Item> {
    if present then [item] else []
  }

  function WriteItems(o: Options): seq<Item> {
    Maybe(Bare(FGithubWrites), o.githubWrites) + Maybe(Bare(FGitlabWrites), o.gitlabWrites)
  }

  function TextItem(f: Flag, value: Option<Bytes>): seq<Item> {
    if value.Some? then [With(f, value.value)] else []
  }

  function OptionItems(o: Options, theme: Option<Bytes>): seq<Item> {
    WriteItems(o) + (TextItem(FFont, o.font) + TextItem(FTheme, theme))
  }

  /** `stateDir` and `theme` are the absolute paths; the theme is unchanged where no such file exists. */
  function LaunchArgs(
      env: Env, o: Options, stateDir: Bytes, theme: Option<Bytes>, request: Option<Request>): Option<seq<Bytes>> {
    var source := SourceItems(env, request);
    if source.None? then None
    else Some(Words(LaunchItems(stateDir, source.value, OptionItems(o, theme))))
  }

  function Start(stateDir: Bytes): seq<Item> {
    [Bare(FForeground), With(FState, stateDir)]
  }

  function LaunchItems(stateDir: Bytes, source: seq<Item>, options: seq<Item>): seq<Item> {
    Start(stateDir) + source + options
  }

  // ----- what is printed is read back -----

  predicate IsItem(item: Item) {
    match item
    case Bare(f) => !TakesValue(f)
    case With(f, _) => TakesValue(f)
    case Lone(value) => FlagOf(value).None?
  }

  predicate WellFormed(items: seq<Item>) {
    forall k :: 0 <= k < |items| ==> IsItem(items[k])
  }

  function Applied(env: Env, s: State, item: Item): Result<State, Failure> {
    match item
    case Bare(f) => Ok(Switch(s, f))
    case With(f, value) => Operand(env, s, f, value)
    case Lone(value) => Positional(s, value)
  }

  function AllApplied(env: Env, s: State, items: seq<Item>): Result<State, Failure>
    decreases |items|
  {
    if items == [] then Ok(s)
    else
      var next := Applied(env, s, items[0]);
      if next.Err? then next else AllApplied(env, next.value, items[1..])
  }

  /** An operand is read as the value of its option whatever it looks like. */
  lemma {:induction false} ReadsWords(env: Env, s: State, items: seq<Item>)
    requires WellFormed(items)
    ensures Read(env, s, Words(items)) == AllApplied(env, s, items)
    decreases |items|
  {
    if items != [] {
      var words, rest := Words(items), Words(items[1..]);
      match items[0] {
        case Bare(f) =>
          NameIsFlag(f);
          assert words[1..] == rest;
        case With(f, value) =>
          NameIsFlag(f);
          assert words[2..] == rest;
        case Lone(value) => assert words[1..] == rest;
      }
      var next := Applied(env, s, items[0]);
      if next.Ok? {
        ReadsWords(env, next.value, items[1..]);
      }
    }
  }

  lemma {:induction false} AppliedInTurn(env: Env, s: State, a: seq<Item>, b: seq<Item>)
    ensures AllApplied(env, s, a + b)
      == (var next := AllApplied(env, s, a); if next.Err? then next else AllApplied(env, next.value, b))
    decreases |a|
  {
    if a == [] {
      assert a + b == b;
    } else {
      assert (a + b)[1..] == a[1..] + b;
      var next := Applied(env, s, a[0]);
      if next.Ok? {
        AppliedInTurn(env, next.value, a[1..], b);
      }
    }
  }

  /** The texts of a request and of the options are UTF-8, as the source's strings are. */
  predicate AreTexts(o: Options, request: Option<Request>) {
    && (o.font.Some? ==> Utf8(o.font.value))
    && (request.Some? ==>
        match request.value
        case Fixture(id) => Utf8(id)
        case Remote(_, address) => Utf8(address)
        case LocalGit(_, base, head) => Utf8(base) && Utf8(head)
        case Resume(id) => Utf8(id)
        case _ => true)
  }

  /** The child's parsers agree with the request: a Trail is one, and a compare belongs to its provider. */
  predicate Agrees(env: Env, request: Option<Request>) {
    request.Some? && request.value.Remote? ==>
      var (provider, address) := (request.value.provider, request.value.address);
      if provider.Entire? then env.isTrail(address)
      else env.compareOf(address).Some? ==> env.compareOf(address).value == provider
  }

  function Meant(o: Options, stateDir: Bytes, theme: Option<Bytes>, request: Option<Request>): Options {
    Options(request, Some(stateDir), o.githubWrites, o.gitlabWrites, false, true, false, o.font, theme, None, None)
  }

  function AfterSource(s: State, request: Option<Request>): State {
    match request
    case None => s
    case Some(LocalGit(root, base, head)) => s.(source := Some(LocalGit(root, "", "")), base := base, head := head)
    case Some(r) => s.(source := Some(r))
  }

  lemma {:induction false} OneApplied(env: Env, s: State, item: Item, rest: seq<Item>)
    ensures AllApplied(env, s, [item] + rest)
      == (var next := Applied(env, s, item); if next.Err? then next else AllApplied(env, next.value, rest))
  {
    assert ([item] + rest)[1..] == rest;
  }

  lemma {:induction false} OnlyApplied(env: Env, s: State, item: Item)
    ensures AllApplied(env, s, [item]) == Applied(env, s, item)
  {
    OneApplied(env, s, item, []);
    assert [item] + [] == [item];
  }

  lemma {:induction false} GitIsRead(env: Env, s: State, root: Bytes, base: Bytes, head: Bytes)
    requires s.source.None? && Utf8(base) && Utf8(head)
    ensures AllApplied(env, s, [With(FGit, root), With(FBase, base), With(FHead, head)])
         == Ok(AfterSource(s, Some(LocalGit(root, base, head))))
  {
    var git := s.(source := Some(LocalGit(root, "", "")));
    assert [With(FGit, root), With(FBase, base), With(FHead, head)]
      == [With(FGit, root)] + ([With(FBase, base)] + [With(FHead, head)]);
    OneApplied(env, s, With(FGit, root), [With(FBase, base)] + [With(FHead, head)]);
    OneApplied(env, git, With(FBase, base), [With(FHead, head)]);
    OnlyApplied(env, git.(base := base), With(FHead, head));
  }

  predicate OtherSource(s: State, next: State, request: Option<Request>) {
    next.source.Some? && next.source != request && next.source.value.Remote? && next.positional == s.positional
  }

  lemma {:induction false} SourceIsRead(env: Env, s: State, request: Option<Request>, o: Options)
    requires SourceItems(env, request).Some? && s.source.None? && AreTexts(o, request)
    ensures var next := AllApplied(env, s, SourceItems(env, request).value);
      if Agrees(env, request) then next == Ok(AfterSource(s, request))
      else next.Err? || OtherSource(s, next.value, request)
  {
    var items := SourceItems(env, request).value;
    match request {
      case None =>
      case Some(LocalGit(root, base, head)) => GitIsRead(env, s, root, base, head);
      case Some(r) => OnlyApplied(env, s, items[0]);
    }
  }

  /** An option that may be absent. */
  lemma {:induction false} MaybeApplied(env: Env, s: State, f: Flag, present: bool)
    requires !TakesValue(f)
    ensures AllApplied(env, s, Maybe(Bare(f), present)) == Ok(if present then Switch(s, f) else s)
  {
    OnlyApplied(env, s, Bare(f));
  }

  lemma {:induction false} WritesAreRead(env: Env, s: State, o: Options)
    ensures AllApplied(env, s, WriteItems(o))
      == Ok(s.(githubWrites := s.githubWrites || o.githubWrites, gitlabWrites := s.gitlabWrites || o.gitlabWrites))
  {
    AppliedInTurn(env, s, Maybe(Bare(FGithubWrites), o.githubWrites), Maybe(Bare(FGitlabWrites), o.gitlabWrites));
    MaybeApplied(env, s, FGithubWrites, o.githubWrites);
    MaybeApplied(env, s.(githubWrites := s.githubWrites || o.githubWrites), FGitlabWrites, o.gitlabWrites);
  }

  lemma {:induction false} TextIsRead(env: Env, s: State, f: Flag, value: Option<Bytes>)
    requires f.FFont? || f.FTheme?
    ensures AllApplied(env, s, TextItem(f, value)) ==
      if value.None? then Ok(s)
      else if !Utf8(value.value) then Err(NotUtf8)
      else Ok(if f.FFont? then s.(font := value) else s.(theme := value))
  {
    if value.Some? {
      OnlyApplied(env, s, With(f, value.value));
    }
  }

  /** The state after all options, unless the theme is not UTF-8. */
  function AfterOptions(s: State, o: Options, theme: Option<Bytes>): State {
    s.(githubWrites := s.githubWrites || o.githubWrites, gitlabWrites := s.gitlabWrites || o.gitlabWrites,
      font := if o.font.Some? then o.font else s.font, theme := if theme.Some? then theme else s.theme)
  }

  lemma {:induction false} OptionsAreRead(env: Env, s: State, o: Options, theme: Option<Bytes>)
    requires o.font.Some? ==> Utf8(o.font.value)
    ensures AllApplied(env, s, OptionItems(o, theme))
      == if theme.Some? && !Utf8(theme.value) then Err(NotUtf8) else Ok(AfterOptions(s, o, theme))
  {
    var font, look := TextItem(FFont, o.font), TextItem(FTheme, theme);
    var s1 := s.(githubWrites := s.githubWrites || o.githubWrites, gitlabWrites := s.gitlabWrites || o.gitlabWrites);
    var s2 := s1.(font := if o.font.Some? then o.font else s.font);
    AppliedInTurn(env, s, WriteItems(o), font + look);
    WritesAreRead(env, s, o);
    AppliedInTurn(env, s1, font, look);
    TextIsRead(env, s1, FFont, o.font);
    TextIsRead(env, s2, FTheme, theme);
  }

  lemma {:induction false} ItemsAreWellFormed(
      env: Env, stateDir: Bytes, request: Option<Request>, o: Options, theme: Option<Bytes>)
    requires SourceItems(env, request).Some?
    ensures WellFormed(LaunchItems(stateDir, SourceItems(env, request).value, OptionItems(o, theme)))
  {
    SourceIsWellFormed(env, request);
    assert WellFormed(Start(stateDir)) && WellFormed(WriteItems(o));
    assert WellFormed(TextItem(FFont, o.font)) && WellFormed(TextItem(FTheme, theme));
    WellFormedJoin(TextItem(FFont, o.font), TextItem(FTheme, theme));
    WellFormedJoin(WriteItems(o), TextItem(FFont, o.font) + TextItem(FTheme, theme));
    WellFormedJoin(Start(stateDir), SourceItems(env, request).value);
    WellFormedJoin(Start(stateDir) + SourceItems(env, request).value, OptionItems(o, theme));
  }

  lemma {:induction false} WellFormedJoin(a: seq<Item>, b: seq<Item>)
    requires WellFormed(a) && WellFormed(b)
    ensures WellFormed(a + b)
  {}

  lemma {:induction false} SourceIsWellFormed(env: Env, request: Option<Request>)
    requires SourceItems(env, request).Some?
    ensures WellFormed(SourceItems(env, request).value)
  {}

  /** The source alone decides whether the finished options are the ones that were meant. */
  lemma {:induction false} FinishIsMeant(
      env: Env, s: State, o: Options, stateDir: Bytes, theme: Option<Bytes>, request: Option<Request>)
    requires s == AfterSource(INITIAL.(foreground := true, stateDir := Some(stateDir)), request)
    ensures Finish(env, AfterOptions(s, o, theme)) == Ok(Meant(o, stateDir, theme, request))
  {}

  lemma {:induction false} FinishIsOther(
      env: Env, s: State, next: State, o: Options, stateDir: Bytes, theme: Option<Bytes>, request: Option<Request>)
    requires OtherSource(s, next, request) && !s.positional
    ensures Finish(env, AfterOptions(next, o, theme)) != Ok(Meant(o, stateDir, theme, request))
  {}

  lemma {:induction false} StartIsRead(env: Env, stateDir: Bytes, rest: seq<Item>)
    ensures AllApplied(env, INITIAL, Start(stateDir) + rest)
         == AllApplied(env, INITIAL.(foreground := true, stateDir := Some(stateDir)), rest)
  {
    assert Start(stateDir) + rest == [Bare(FForeground)] + ([With(FState, stateDir)] + rest);
    OneApplied(env, INITIAL, Bare(FForeground), [With(FState, stateDir)] + rest);
    OneApplied(env, INITIAL.(foreground := true), With(FState, stateDir), rest);
  }

  /** What the child's parser has read after the printed arguments. */
  function ReadBack(env: Env, s: State, source: seq<Item>, options: seq<Item>): Result<State, Failure> {
    var next := AllApplied(env, s, source);
    if next.Err? then next else AllApplied(env, next.value, options)
  }

  lemma {:induction false} LaunchIsRead(
      env: Env, o: Options, stateDir: Bytes, theme: Option<Bytes>, request: Option<Request>)
    requires LaunchArgs(env, o, stateDir, theme, request).Some?
    ensures Read(env, INITIAL, LaunchArgs(env, o, stateDir, theme, request).value)
      == ReadBack(env, INITIAL.(foreground := true, stateDir := Some(stateDir)), SourceItems(env, request).value,
        OptionItems(o, theme))
  {
    var source, options := SourceItems(env, request).value, OptionItems(o, theme);
    ItemsAreWellFormed(env, stateDir, request, o, theme);
    ReadsWords(env, INITIAL, LaunchItems(stateDir, source, options));
    assert LaunchItems(stateDir, source, options) == Start(stateDir) + (source + options);
    StartIsRead(env, stateDir, source + options);
    AppliedInTurn(env, INITIAL.(foreground := true, stateDir := Some(stateDir)), source, options);
  }

  lemma {:induction false} ReadBackIsMeant(
      env: Env, o: Options, stateDir: Bytes, theme: Option<Bytes>, request: Option<Request>)
    requires SourceItems(env, request).Some? && AreTexts(o, request)
    ensures var s := ReadBack(env, INITIAL.(foreground := true, stateDir := Some(stateDir)),
        SourceItems(env, request).value, OptionItems(o, theme));
      (s.Ok? && Finish(env, s.value) == Ok(Meant(o, stateDir, theme, request)))
        <==> (Agrees(env, request) && (theme.Some? ==> Utf8(theme.value)))
  {
    var s := INITIAL.(foreground := true, stateDir := Some(stateDir));
    SourceIsRead(env, s, request, o);
    var next := AllApplied(env, s, SourceItems(env, request).value);
    if next.Ok? {
      OptionsAreRead(env, next.value, o, theme);
      if Agrees(env, request) {
        FinishIsMeant(env, next.value, o, stateDir, theme, request);
      } else {
        FinishIsOther(env, s, next.value, o, stateDir, theme, request);
      }
    }
  }

  /**
   The printed arguments open the same request with the same state, write flags, font and theme,
   exactly when the child's parsers agree and the theme's absolute path is UTF-8.
   */
  lemma {:induction false} LaunchIsReadBack(
      env: Env, o: Options, stateDir: Bytes, theme: Option<Bytes>, request: Option<Request>)
    requires LaunchArgs(env, o, stateDir, theme, request).Some? && AreTexts(o, request)
    ensures Parsed(env, LaunchArgs(env, o, stateDir, theme, request).value) == Ok(Meant(o, stateDir, theme, request))
       <==> Agrees(env, request) && (theme.Some? ==> Utf8(theme.value))
  {
    LaunchIsRead(env, o, stateDir, theme, request);
    ReadBackIsMeant(env, o, stateDir, theme, request);
  }

  /** Arguments are printed for every request but an address of another provider that is no compare. */
  lemma {:induction false} PrintsExactly(
      env: Env, o: Options, stateDir: Bytes, theme: Option<Bytes>, request: Option<Request>)
    ensures LaunchArgs(env, o, stateDir, theme, request).None? <==>
      && request.Some? && request.value.Remote? && request.value.provider.Other?
      && env.compareOf(request.value.address).None?
  {
  }

  /** A theme whose absolute path is not UTF-8, here "/", the byte 0xFF and "/t", is not read back. */
  lemma {:induction false} OddThemeIsNotReadBack(
      env: Env, o: Options, stateDir: Bytes, theme: Bytes, request: Option<Request>)
    requires LaunchArgs(env, o, stateDir, Some(theme), request).Some? && AreTexts(o, request)
    requires theme == ['/', 0xFF as char, '/', 't']
    ensures Parsed(env,
      LaunchArgs(env, o, stateDir, Some(theme), request).value) != Ok(Meant(o, stateDir, Some(theme), request))
  {
    LaunchIsReadBack(env, o, stateDir, Some(theme), request);
    assert CharLength(theme) == 1;
    assert theme[1..][0] == 0xFF as char;
    assert !Utf8(theme[1..]);
    assert !Utf8(theme);
  }

  // ----- what a command line means -----

  /** The value of the last such option. */
  function LastOf(items: seq<Item>, f: Flag): Option<Bytes> {
    if items == [] then None
    else if items[|items| - 1].With? && items[|items| - 1].flag == f then Some(items[|items| - 1].value)
    else LastOf(items[..|items| - 1], f)
  }

  /** What an argument names as the thing to open, before a lone one is looked at more closely. */
  function SourceOf(env: Env, item: Item): Option<Request> {
    match item
    case With(FFixture, id) => Some(Fixture(id))
    case With(FPatch, path) => Some(Patch(path))
    case With(FPr, address) => Some(Remote(Github, address))
    case With(FMr, address) => Some(Remote(Gitlab, address))
    case With(FTrail, address) => Some(Remote(Entire, address))
    case With(FCompare, address) =>
      if env.compareOf(address).Some? then Some(Remote(env.compareOf(address).value, address)) else None
    case With(FGit, root) => Some(LocalGit(root, "", ""))
    case With(FStaged, path) => Some(LocalIndex(path))
    case With(FWorktree, path) => Some(LocalWorktree(path))
    case With(FResume, id) => Some(Resume(id))
    case Lone(path) => Some(Patch(path))
    case _ => None
  }

  /** Texts are UTF-8, a Trail and a compare are what they should be, and what starts with a dash is an option. */
  predicate IsAcceptable(env: Env, item: Item) {
    match item
    case Bare(_) => true
    case With(f, value) =>
      && (f in {FFixture, FPr, FMr, FResume, FTrail, FCompare, FBase, FHead, FFont, FTheme} ==> Utf8(value))
      && (f == FTrail ==> env.isTrail(value))
      && (f == FCompare ==> env.compareOf(value).Some?)
    case Lone(value) => value == [] || value[0] != '-'
  }

  function Or(value: Option<Bytes>, default: Bytes): Bytes {
    if value.Some? then value.value else default
  }

  /** Each argument can be taken, and at most one names what to open. */
  ghost predicate CanTake(env: Env, items: seq<Item>) {
    && (forall i :: 0 <= i < |items| ==> IsAcceptable(env, items[i]))
    && (forall i, j :: 0 <= i < j < |items| ==> SourceOf(env, items[i]).None? || SourceOf(env, items[j]).None?)
  }

  lemma {:induction false} LastGrows(items: seq<Item>, item: Item, f: Flag)
    ensures LastOf(items + [item], f) == if item.With? && item.flag == f then Some(item.value) else LastOf(items, f)
  {
    assert (items + [item])[..|items|] == items;
  }

  lemma {:induction false} BareGrows(items: seq<Item>, item: Item, f: Flag)
    ensures Bare(f) in items + [item] <==> Bare(f) in items || item == Bare(f)
  {
  }

  lemma {:induction false} AppliedIsOk(env: Env, s: State, item: Item)
    requires IsItem(item)
    ensures Applied(env, s, item).Ok? <==> IsAcceptable(env, item) && (SourceOf(env, item).Some? ==> s.source.None?)
  {
    match item
    case Bare(_) =>
    case Lone(_) =>
    case With(f, value) =>
      assert TakesText(f) <==> f in {FFixture, FPr, FMr, FResume, FTrail, FCompare, FBase, FHead, FFont, FTheme};
  }

  /** What one argument changes: the source, one value, or one switch. */
  lemma {:induction false} SourceApplied(env: Env, s: State, f: Flag, value: Bytes)
    requires Operand(env, s, f, value).Ok? && SourceOf(env, With(f, value)).Some?
    ensures Operand(env, s, f, value).value == s.(source := SourceOf(env, With(f, value)))
  {
  }

  lemma {:induction false} ValueApplied(env: Env, s: State, f: Flag, value: Bytes)
    requires Operand(env, s, f, value).Ok? && SourceOf(env, With(f, value)).None? && TakesValue(f)
    ensures Operand(env, s, f, value).value == WithValue(s, f, value)
  {
  }

  function If(f: Flag, g: Flag, value: Bytes, default: Option<Bytes>): Option<Bytes> {
    if f == g then Some(value) else default
  }

  function WithValue(s: State, f: Flag, value: Bytes): State {
    s.(stateDir := If(f, FState, value, s.stateDir), font := If(f, FFont, value, s.font),
      theme := If(f, FTheme, value, s.theme), probe := If(f, FProbe, value, s.probe),
      probeOutput := If(f, FProbeOutput, value, s.probeOutput),
      base := if f == FBase then value else s.base, head := if f == FHead then value else s.head)
  }

  lemma {:induction false} SwitchApplied(s: State, f: Flag)
    requires !TakesValue(f)
    ensures Switch(s, f) ==
      s.(githubWrites := s.githubWrites || f == FGithubWrites, gitlabWrites := s.gitlabWrites || f == FGitlabWrites,
        inspect := s.inspect || f == FInspect, foreground := s.foreground || f == FForeground,
        json := s.json || f == FJson)
  {
  }

  lemma {:induction false} NoValueForSource(f: Flag, value: Bytes, s: State)
    requires f in {FFixture, FPatch, FPr, FMr, FTrail, FCompare, FGit, FStaged, FWorktree, FResume}
    ensures WithValue(s, f, value) == s
  {
  }

  function Changed(env: Env, s: State, item: Item): State {
    match item
    case Bare(f) => Switch(s, f)
    case With(f, value) =>
      var source := SourceOf(env, item);
      WithValue(if source.Some? then s.(source := source) else s, f, value)
    case Lone(value) => s.(positional := true, source := Some(Patch(value)))
  }

  lemma {:induction false} AppliedIsChange(env: Env, s: State, item: Item)
    requires IsItem(item) && Applied(env, s, item).Ok?
    ensures Applied(env, s, item).value == Changed(env, s, item)
  {
    if item.With? {
      if SourceOf(env, item).Some? {
        SourceApplied(env, s, item.flag, item.value);
        NoValueForSource(item.flag, item.value, s.(source := SourceOf(env, item)));
      } else {
        ValueApplied(env, s, item.flag, item.value);
      }
    }
  }

  ghost predicate ReflectsSwitches(items: seq<Item>, s: State) {
    && s.githubWrites == (Bare(FGithubWrites) in items) && s.gitlabWrites == (Bare(FGitlabWrites) in items)
    && s.inspect == (Bare(FInspect) in items) && s.foreground == (Bare(FForeground) in items)
    && s.json == (Bare(FJson) in items)
  }

  ghost predicate ReflectsValues(items: seq<Item>, s: State) {
    && s.stateDir == LastOf(items, FState) && s.font == LastOf(items, FFont) && s.theme == LastOf(items, FTheme)
    && s.probe == LastOf(items, FProbe) && s.probeOutput == LastOf(items, FProbeOutput)
    && s.base == Or(LastOf(items, FBase), "main") && s.head == Or(LastOf(items, FHead), "HEAD")
  }

  ghost predicate ReflectsSource(env: Env, items: seq<Item>, s: State) {
    && (s.source.Some? ==> exists i :: 0 <= i < |items| && SourceOf(env, items[i]) == s.source)
    && (forall i :: 0 <= i < |items| && SourceOf(env, items[i]).Some? ==>
          s.source == SourceOf(env, items[i]) && s.positional == items[i].Lone?)
    && (s.source.None? ==> !s.positional)
  }

  lemma {:induction false} SwitchesGrow(env: Env, items: seq<Item>, item: Item, s: State)
    requires ReflectsSwitches(items, s) && IsItem(item) && Applied(env, s, item).Ok?
    ensures ReflectsSwitches(items + [item], Applied(env, s, item).value)
  {
    AppliedIsChange(env, s, item);
    if item.Bare? {
      SwitchApplied(s, item.flag);
    }
    BareGrows(items, item, FGithubWrites);
    BareGrows(items, item, FGitlabWrites);
    BareGrows(items, item, FInspect);
    BareGrows(items, item, FForeground);
    BareGrows(items, item, FJson);
  }

  lemma {:induction false} ValuesGrow(env: Env, items: seq<Item>, item: Item, s: State)
    requires ReflectsValues(items, s) && IsItem(item) && Applied(env, s, item).Ok?
    ensures ReflectsValues(items + [item], Applied(env, s, item).value)
  {
    AppliedIsChange(env, s, item);
    forall f ensures LastOf(items + [item], f) ==
      if item.With? && item.flag == f then Some(item.value) else LastOf(items, f) {
      LastGrows(items, item, f);
    }
    if item.Bare? {
      SwitchApplied(s, item.flag);
    } else if item.With? {
      var t := if SourceOf(env, item).Some? then s.(source := SourceOf(env, item)) else s;
      ValueIsLast(items, items + [item], t, item.flag, item.value);
    }
  }

  lemma {:induction false} ValueIsLast(items: seq<Item>, more: seq<Item>, s: State, flag: Flag, value: Bytes)
    requires ReflectsValues(items, s)
    requires forall f :: LastOf(more, f) == if flag == f then Some(value) else LastOf(items, f)
    ensures ReflectsValues(more, WithValue(s, flag, value))
  {
  }

  lemma {:induction false} SourceGrows(env: Env, items: seq<Item>, item: Item, s: State)
    requires ReflectsSource(env, items, s) && IsItem(item) && Applied(env, s, item).Ok?
    ensures ReflectsSource(env, items + [item], Applied(env, s, item).value)
  {
    AppliedIsChange(env, s, item);
    AppliedIsOk(env, s, item);
    var t := Applied(env, s, item).value;
    if item.Bare? {
      SwitchApplied(s, item.flag);
    }
    if SourceOf(env, item).Some? {
      NewSource(env, items, item, s, t);
    } else {
      OldSource(env, items, item, s, t);
    }
  }

  lemma {:induction false} NewSource(env: Env, items: seq<Item>, item: Item, s: State, t: State)
    requires ReflectsSource(env, items, s) && s.source.None? && SourceOf(env, item).Some?
    requires t.source == SourceOf(env, item) && t.positional == item.Lone?
    ensures ReflectsSource(env, items + [item], t)
  {
    var more := items + [item];
    assert more[|items|] == item;
    forall i | 0 <= i < |items| ensures SourceOf(env, items[i]).None? {
    }
  }

  lemma {:induction false} OldSource(env: Env, items: seq<Item>, item: Item, s: State, t: State)
    requires ReflectsSource(env, items, s) && SourceOf(env, item).None?
    requires t.source == s.source && t.positional == s.positional
    ensures ReflectsSource(env, items + [item], t)
  {
    var more := items + [item];
    assert more[|items|] == item;
    if s.source.Some? {
      var i :| 0 <= i < |items| && SourceOf(env, items[i]) == s.source;
      assert more[i] == items[i];
    }
  }

  lemma {:induction false} CanTakeMore(env: Env, items: seq<Item>, item: Item, s: State)
    requires CanTake(env, items) && ReflectsSource(env, items, s) && IsItem(item)
    ensures CanTake(env, items + [item]) <==> Applied(env, s, item).Ok?
  {
    AppliedIsOk(env, s, item);
    var more := items + [item];
    assert more[|items|] == item;
    if s.source.Some? {
      var i :| 0 <= i < |items| && SourceOf(env, items[i]) == s.source;
      assert more[i] == items[i];
    }
    assert forall i :: 0 <= i < |items| ==> more[i] == items[i];
  }

  lemma {:induction false} Reflected(env: Env, items: seq<Item>)
    requires WellFormed(items)
    ensures var s := AllApplied(env, INITIAL, items);
      && (s.Ok? <==> CanTake(env, items))
      && (s.Ok? ==> ReflectsSwitches(items, s.value) && ReflectsValues(items, s.value)
                    && ReflectsSource(env, items, s.value))
  {
    if items != [] {
      var n := |items| - 1;
      var front, item := items[..n], items[n];
      assert items == front + [item] && IsItem(item);
      Reflected(env, front);
      AppliedInTurn(env, INITIAL, front, [item]);
      var s := AllApplied(env, INITIAL, front);
      if s.Ok? {
        OnlyApplied(env, s.value, item);
        CanTakeMore(env, front, item, s.value);
        if Applied(env, s.value, item).Ok? {
          SwitchesGrow(env, front, item, s.value);
          ValuesGrow(env, front, item, s.value);
          SourceGrows(env, front, item, s.value);
        }
      } else {
        CannotTake(env, front, item);
      }
    }
  }

  lemma {:induction false} CannotTake(env: Env, items: seq<Item>, item: Item)
    requires !CanTake(env, items)
    ensures !CanTake(env, items + [item])
  {
    var more := items + [item];
    assert forall i :: 0 <= i < |items| ==> more[i] == items[i];
  }

  /** What is opened: the one thing named, a lone argument as it was detected, a repository with its two refs. */
  ghost predicate IsRequest(env: Env, items: seq<Item>, request: Option<Request>) {
    && ((forall i :: 0 <= i < |items| ==> SourceOf(env, items[i]).None?) ==> request == None)
    && forall i :: 0 <= i < |items| && SourceOf(env, items[i]).Some? ==>
         var named := if items[i].Lone? then env.detect(items[i].value) else SourceOf(env, items[i]);
         && named.Some?
         && request == Some(
              match named.value
              case LocalGit(root, _, _) =>
                LocalGit(root, Or(LastOf(items, FBase), "main"), Or(LastOf(items, FHead), "HEAD"))
              case r => r)
  }

  /** What the options say: the last value of each option counts, a switch wherever it stands. */
  ghost predicate IsMeant(env: Env, items: seq<Item>, o: Options) {
    && CanTake(env, items) && IsRequest(env, items, o.request)
    && o.githubWrites == (Bare(FGithubWrites) in items) && o.gitlabWrites == (Bare(FGitlabWrites) in items)
    && o.inspect == (Bare(FInspect) in items) && o.foreground == (Bare(FForeground) in items)
    && o.json == (Bare(FJson) in items)
    && o.stateDir == LastOf(items, FState) && o.font == LastOf(items, FFont) && o.theme == LastOf(items, FTheme)
    && o.probe == LastOf(items, FProbe) && o.probeOutput == LastOf(items, FProbeOutput)
    && o.probe.Some? == o.probeOutput.Some?
    && (o.json ==> env.fitsJson(o.request))
  }

  lemma {:induction false} FinishedExactly(env: Env, items: seq<Item>, s: State, o: Options)
    requires CanTake(env, items)
    requires ReflectsSwitches(items, s) && ReflectsValues(items, s) && ReflectsSource(env, items, s)
    ensures Finish(env, s) == Ok(o) <==> IsMeant(env, items, o)
  {
    RequestExactly(env, items, s, o.request);
  }

  lemma {:induction false} RequestExactly(env: Env, items: seq<Item>, s: State, request: Option<Request>)
    requires ReflectsValues(items, s) && ReflectsSource(env, items, s)
    ensures IsRequest(env, items, request) <==>
      request == WithRefs(Detected(env, s), s) && (s.source.Some? ==> request.Some?)
  {
    if s.source.Some? {
      var i :| 0 <= i < |items| && SourceOf(env, items[i]) == s.source;
      RequestOfSource(env, items, s, i, request);
    }
  }

  lemma {:induction false} RequestOfSource(env: Env, items: seq<Item>, s: State, i: nat, request: Option<Request>)
    requires ReflectsValues(items, s) && ReflectsSource(env, items, s)
    requires i < |items| && s.source.Some? && SourceOf(env, items[i]) == s.source
    ensures IsRequest(env, items, request) <==> request.Some? && request == WithRefs(Detected(env, s), s)
  {
    SourceIsFinished(env, items, s, i);
  }

  lemma {:induction false} SourceIsFinished(env: Env, items: seq<Item>, s: State, i: nat)
    requires ReflectsSource(env, items, s) && i < |items| && SourceOf(env, items[i]).Some?
    ensures Detected(env, s) == if items[i].Lone? then env.detect(items[i].value) else SourceOf(env, items[i])
    ensures forall j :: 0 <= j < |items| && SourceOf(env, items[j]).Some? ==>
      SourceOf(env, items[j]) == SourceOf(env, items[i]) && items[j].Lone? == items[i].Lone?
  {
  }

  /** An accepted command line is options, operands and lone arguments, and means what they say. */
  lemma {:induction false} ParsedExactly(env: Env, items: seq<Item>, o: Options)
    requires WellFormed(items)
    ensures Parsed(env, Words(items)) == Ok(o) <==> IsMeant(env, items, o)
  {
    ReadsWords(env, INITIAL, items);
    Reflected(env, items);
    var s := AllApplied(env, INITIAL, items);
    if s.Ok? {
      FinishedExactly(env, items, s.value, o);
    }
  }

  /** And no other is accepted. */
  lemma {:induction false} AcceptedIsItems(env: Env, s: State, args: seq<Bytes>) returns (items: seq<Item>)
    requires Read(env, s, args).Ok?
    ensures WellFormed(items) && Words(items) == args
    decreases |args|
  {
    if args == [] {
      return [];
    }
    var f := FlagOf(args[0]);
    if f.Some? {
      FlagIsName(args[0]);
    }
    if f.Some? && TakesValue(f.value) {
      var more := AcceptedIsItems(env, Operand(env, s, f.value, args[1]).value, args[2..]);
      items := ItemOpens(With(f.value, args[1]), more);
      assert args == [args[0], args[1]] + args[2..];
    } else {
      var next := if f.Some? then Switch(s, f.value) else Positional(s, args[0]).value;
      var more := AcceptedIsItems(env, next, args[1..]);
      items := ItemOpens(if f.Some? then Bare(f.value) else Lone(args[0]), more);
      assert args == [args[0]] + args[1..];
    }
  }

  lemma {:induction false} ItemOpens(item: Item, more: seq<Item>) returns (items: seq<Item>)
    requires IsItem(item) && WellFormed(more)
    ensures WellFormed(items) && Words(items) == WordsOf(item) + Words(more)
  {
    items := [item] + more;
    assert items[1..] == more;
  }

  lemma {:induction false} FlagIsName(arg: Bytes)
    requires FlagOf(arg).Some?
    ensures Name(FlagOf(arg).value) == arg
  {
    var f := FlagOf(arg).value;
    if f in {FFixture, FPatch, FPr, FGit, FStaged, FWorktree, FResume} {
      SourceFlagIsName(arg);
    } else if f in {FBase, FHead, FState, FGithubWrites, FGitlabWrites, FMr, FTrail} {
      MiddleFlagIsName(arg);
    } else {
      LateFlagIsName(arg);
    }
  }

  lemma {:induction false} SourceFlagIsName(arg: Bytes)
    requires FlagOf(arg).Some? && FlagOf(arg).value in {FFixture, FPatch, FPr, FGit, FStaged, FWorktree, FResume}
    ensures Name(FlagOf(arg).value) == arg
  {
  }

  lemma {:induction false} MiddleFlagIsName(arg: Bytes)
    requires FlagOf(arg).Some?
    requires FlagOf(arg).value in {FBase, FHead, FState, FGithubWrites, FGitlabWrites, FMr, FTrail}
    ensures Name(FlagOf(arg).value) == arg
  {
  }

  lemma {:induction false} LateFlagIsName(arg: Bytes)
    requires FlagOf(arg).Some?
    requires FlagOf(arg).value in {FCompare, FInspect, FForeground, FJson, FFont, FTheme, FProbe, FProbeOutput}
    ensures Name(FlagOf(arg).value) == arg
  {
  }
}
