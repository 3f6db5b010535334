// The command-line front end: the option record, the extending-method
// parser and the argument loop, which advances a cursor over argv, updates
// the option record and the "was --extending given" flag, and reports where
// it stopped.
module Cli {
  import opened Wrappers
  import opened Decimal

  datatype ExtendingMethod = Shift | Restart | NoExtending

  datatype ChatFormat = Chat | Completion | Qa

  /** The vector-store metric; only the default is named in this front end. */
  datatype DistanceStrategy = MaxInnerProduct | OtherDistance(code: nat)

  /**
   * Conversions the front end borrows from elsewhere: reading a text file
   * (a missing file reads as empty), std::stof (None when it throws) and the
   * distance-strategy parser (None when it throws).
   */
  datatype Env = Env(
    loadTxt: string -> string,
    stof: string -> Option<real>,
    parseDistance: string -> Option<DistanceStrategy>)

  /** The string fields of the option record. */
  datatype TextField =
    | ModelPath | EmbeddingModelPath | RerankerModelPath | VectorStoreIn | MergeVs
    | System | Prompt | AiPrefix | Sampling | TestFn | RagTemplate | RagContextSep
    | RetrieveRewriteTemplate | LayerSpec | LoadSession | SaveSession | NGpuLayers
    | CurVsName | DumpDot | EmbRankQuerySep | RpcEndpoints | ServeRpc

  /** The int fields. */
  datatype IntField =
    | MaxLength | MaxContextLength | TopK | NumThreads | Seed | RetrieveTopN
    | RerankTopN | RagPostExtending | SaveSessionRounds | BeamSize | LogLevel

  /** The float fields. */
  datatype RealField = TopP | Temp | TfsZ | PresencePenalty | RerankScoreThres

  /** The bool fields. */
  datatype Switch =
    | Interactive | Show | MultiLine | Tokenize | HideReference | RagDump
    | ShowBanner | ShowHelp | ShowDevices | RerankRewrite | ReversedRole | MoeOnCpu

  /**
   * The option record. Fields of one type are kept in a map keyed by the
   * field's name, and the bool fields as the set of those that are true.
   * Floats are reals; their rounding is not modelled.
   */
  datatype Args = Args(
    text: map<TextField, string>,
    ints: map<IntField, int>,
    reals: map<RealField, real>,
    on: set<Switch>,
    extending: ExtendingMethod,
    format: ChatFormat,
    vc: DistanceStrategy,
    additional: map<string, string>,
    vectorStores: map<string, seq<string>>)

  /** Every field of the record has a value. */
  predicate Complete(a: Args)
  {
    (forall f: TextField :: f in a.text) && (forall f: IntField :: f in a.ints)
    && (forall f: RealField :: f in a.reals)
  }

  /**
   * The record's initial values. The seed has no initializer in the record;
   * the argument loop overwrites it with a random value before reading argv.
   */
  function DefaultArgs(seed: int): (a: Args)
    ensures Complete(a)
    ensures forall f: TextField :: a.text[f] == DefaultText(f)
    ensures forall i: IntField :: a.ints[i] == DefaultInt(i, seed)
    ensures forall x: RealField :: a.reals[x] == DefaultReal(x)
    ensures a.extending == Restart && a.format == Chat && a.vc == MaxInnerProduct
    ensures a.on == {ShowBanner}
    ensures a.additional == map[] && a.vectorStores == map[]
  {
    Args(
      map f: TextField | true :: DefaultText(f),
      map i: IntField | true :: DefaultInt(i, seed),
      map x: RealField | true :: DefaultReal(x),
      {ShowBanner},
      Restart, Chat, MaxInnerProduct, map[], map[])
  }

  function DefaultText(f: TextField): string
  {
    if f == Prompt then "你好" else if f == Sampling then "top_p"
    else if f == CurVsName then "default" else ""
  }

  function DefaultInt(i: IntField, seed: int): int
  {
    match i
    case MaxLength => -1
    case MaxContextLength => 512
    case TopK => 20
    case NumThreads => 0
    case Seed => seed
    case RetrieveTopN => 2
    case RerankTopN => 1
    case RagPostExtending => 0
    case SaveSessionRounds => -1
    case BeamSize => -1
    case LogLevel => 4
  }

  function DefaultReal(x: RealField): real
  {
    match x
    case TopP => 0.7
    case Temp => 0.7
    case TfsZ => 0.95
    case PresencePenalty => 1.0
    case RerankScoreThres => 0.35
  }

  /** A string field; every field is present in a Complete record. */
  function Text(a: Args, f: TextField): string
  {
    if f in a.text then a.text[f] else ""
  }

  /** The --extending value; any other text means no extending. */
  function ParseExtendingMethod(s: string): (m: ExtendingMethod)
    ensures m == Shift <==> s == "shift"
    ensures m == Restart <==> s == "restart"
    ensures m == NoExtending <==> s != "shift" && s != "restart"
  {
    if s == "shift" then Shift
    else if s == "restart" then Restart
    else NoExtending
  }

  /** The --format value; anything unrecognised is the chat format. */
  function FormatOf(s: string): ChatFormat
  {
    if s == "completion" then Completion
    else if s == "qa" then Qa
    else Chat
  }

  /** Where an option that takes one value stores it, and how it converts it. */
  datatype Target =
    | AsText(f: TextField)
    | FromFile(f: TextField)
    | AsInt(i: IntField)
    | AsReal(r: RealField)
    | AsExtending
    | AsDistance

  /** Whether converting `v` for `t` throws. */
  predicate Rejects(t: Target, v: string, env: Env)
  {
    match t
    case AsInt(_) => StoI(v).None?
    case AsReal(_) => env.stof(v).None?
    case AsDistance => env.parseDistance(v).None?
    case _ => false
  }

  /** Stores the converted value; None when the conversion throws. */
  function Assign(a: Args, t: Target, v: string, env: Env): (r: Option<Args>)
    ensures r.None? <==> Rejects(t, v, env)
    ensures r.Some? && t.AsExtending? ==> r.value == a.(extending := ParseExtendingMethod(v))
    ensures r.Some? && !t.AsExtending? ==> r.value.extending == a.extending
    ensures r.Some? && (t.AsText? || t.FromFile?) ==>
      r.value == a.(text := a.text[t.f := if t.AsText? then v else env.loadTxt(v)])
    ensures r.Some? && t.AsInt? ==> r.value == a.(ints := a.ints[t.i := StoI(v).value])
    ensures r.Some? && t.AsReal? ==> r.value == a.(reals := a.reals[t.r := env.stof(v).value])
    ensures r.Some? && t.AsDistance? ==> r.value == a.(vc := env.parseDistance(v).value)
    ensures Complete(a) && r.Some? ==> Complete(r.value)
  {
    match t
    case AsText(f) => Some(a.(text := a.text[f := v]))
    case FromFile(f) => Some(a.(text := a.text[f := env.loadTxt(v)]))
    case AsInt(i) =>
      (match StoI(v) case None => None case Some(n) => Some(a.(ints := a.ints[i := n])))
    case AsReal(x) =>
      (match env.stof(v) case None => None case Some(y) => Some(a.(reals := a.reals[x := y])))
    case AsExtending => Some(a.(extending := ParseExtendingMethod(v)))
    case AsDistance =>
      (match env.parseDistance(v) case None => None case Some(d) => Some(a.(vc := d)))
  }

  /** What one argv token is. */
  datatype Opt =
    | SetSwitch(w: Switch)
    | HideBanner
    | Format
    | SaveSessionPair
    | Kv
    | VectorStore
    | Param(t: Target)

  /** A recognised option that reads the token after it. */
  predicate TakesValue(o: Option<Opt>)
  {
    o.Some? && (o.value.Format? || o.value.SaveSessionPair? || o.value.VectorStore? || o.value.Param?)
  }

  /**
   * Every spelling the option chain recognises, in the order it tests them.
   * A bool option is written `+name` or `--name`.
   */
  const Spellings: seq<(string, Opt)> := [
    ("--help", SetSwitch(ShowHelp)),
    ("-h", SetSwitch(ShowHelp)),
    ("-?", SetSwitch(ShowHelp)),
    ("--interactive", SetSwitch(Interactive)),
    ("-i", SetSwitch(Interactive)),
    ("--multi", SetSwitch(MultiLine)),
    ("--hide_banner", HideBanner),
    ("+tokenize", SetSwitch(Tokenize)),
    ("--tokenize", SetSwitch(Tokenize)),
    ("+hide_reference", SetSwitch(HideReference)),
    ("--hide_reference", SetSwitch(HideReference)),
    ("+show", SetSwitch(Show)),
    ("--show", SetSwitch(Show)),
    ("+show_devices", SetSwitch(ShowDevices)),
    ("--show_devices", SetSwitch(ShowDevices)),
    ("+reversed_role", SetSwitch(ReversedRole)),
    ("--reversed_role", SetSwitch(ReversedRole)),
    ("+rag_dump", SetSwitch(RagDump)),
    ("--rag_dump", SetSwitch(RagDump)),
    ("+rerank_rewrite", SetSwitch(RerankRewrite)),
    ("--rerank_rewrite", SetSwitch(RerankRewrite)),
    ("+moe_on_cpu", SetSwitch(MoeOnCpu)),
    ("--moe_on_cpu", SetSwitch(MoeOnCpu)),
    ("--format", Format),
    ("--save_session", SaveSessionPair),
    ("--kv", Kv),
    ("--vector_store", VectorStore),
    ("--model", Param(AsText(ModelPath))),
    ("-m", Param(AsText(ModelPath))),
    ("--prompt", Param(AsText(Prompt))),
    ("-p", Param(AsText(Prompt))),
    ("--prompt_file", Param(FromFile(Prompt))),
    ("--system", Param(AsText(System))),
    ("-s", Param(AsText(System))),
    ("--sys_file", Param(FromFile(System))),
    ("--ai_prefix", Param(AsText(AiPrefix))),
    ("--max_length", Param(AsInt(MaxLength))),
    ("-l", Param(AsInt(MaxLength))),
    ("--max_context_length", Param(AsInt(MaxContextLength))),
    ("-c", Param(AsInt(MaxContextLength))),
    ("--extending", Param(AsExtending)),
    ("--sampling", Param(AsText(Sampling))),
    ("--top_k", Param(AsInt(TopK))),
    ("-k", Param(AsInt(TopK))),
    ("--top_p", Param(AsReal(TopP))),
    ("-q", Param(AsReal(TopP))),
    ("--tfs_z", Param(AsReal(TfsZ))),
    ("--temp", Param(AsReal(Temp))),
    ("-t", Param(AsReal(Temp))),
    ("--presence_penalty", Param(AsReal(PresencePenalty))),
    ("--threads", Param(AsInt(NumThreads))),
    ("-n", Param(AsInt(NumThreads))),
    ("--n_gpu_layers", Param(AsText(NGpuLayers))),
    ("-ngl", Param(AsText(NGpuLayers))),
    ("--seed", Param(AsInt(Seed))),
    ("--test", Param(AsText(TestFn))),
    ("--set_vs_name", Param(AsText(CurVsName))),
    ("--embedding_model", Param(AsText(EmbeddingModelPath))),
    ("--distance_strategy", Param(AsDistance)),
    ("--retrieve_top_n", Param(AsInt(RetrieveTopN))),
    ("--reranker_model", Param(AsText(RerankerModelPath))),
    ("--retrieve_rewrite_template", Param(AsText(RetrieveRewriteTemplate))),
    ("--rerank_score_thres", Param(AsReal(RerankScoreThres))),
    ("--rerank_top_n", Param(AsInt(RerankTopN))),
    ("--rag_post_extending", Param(AsInt(RagPostExtending))),
    ("--rag_template", Param(AsText(RagTemplate))),
    ("--rag_context_sep", Param(AsText(RagContextSep))),
    ("--emb_rank_query_sep", Param(AsText(EmbRankQuerySep))),
    ("--init_vs", Param(AsText(VectorStoreIn))),
    ("--merge_vs", Param(AsText(MergeVs))),
    ("--layer_spec", Param(AsText(LayerSpec))),
    ("--load_session", Param(AsText(LoadSession))),
    ("--dump_dot", Param(AsText(DumpDot))),
    ("--beam_size", Param(AsInt(BeamSize))),
    ("--log_level", Param(AsInt(LogLevel))),
    ("--rpc_endpoints", Param(AsText(RpcEndpoints))),
    ("--serve_rpc", Param(AsText(ServeRpc)))
  ]

  /** The option of the first spelling from position `i` on that equals `arg`; None when none does. */
  function Lookup(arg: string, i: nat): (o: Option<Opt>)
    ensures o.Some? ==> exists j :: i <= j < |Spellings| && Spellings[j] == (arg, o.value)
    decreases |Spellings| - i
  {
    if i >= |Spellings| then None
    else if Spellings[i].0 == arg then Some(Spellings[i].1)
    else Lookup(arg, i + 1)
  }

  /**
   * A token is unknown exactly when no spelling from `i` on matches it, and
   * otherwise it is the option of the first spelling that does.
   */
  lemma {:induction false} LookupFirst(arg: string, i: nat)
    ensures var o := Lookup(arg, i);
      && (o.None? <==> forall j :: i <= j < |Spellings| ==> Spellings[j].0 != arg)
      && (o.Some? ==>
            exists j :: i <= j < |Spellings| && Spellings[j] == (arg, o.value)
              && forall k :: i <= k < j ==> Spellings[k].0 != arg)
    decreases |Spellings| - i
  {
    if i < |Spellings| {
      if Spellings[i].0 != arg {
        LookupFirst(arg, i + 1);
        var o := Lookup(arg, i + 1);
        assert Lookup(arg, i) == o;
        if o.Some? {
          var j :| i + 1 <= j < |Spellings| && Spellings[j] == (arg, o.value)
            && forall k :: i + 1 <= k < j ==> Spellings[k].0 != arg;
          assert forall k :: i <= k < j ==> Spellings[k].0 != arg;
        }
      } else {
        assert Spellings[i] == (arg, Lookup(arg, i).value);
      }
    }
  }

  /** The option chain: what the front end takes the token `arg` to be; None for a token it does not know. */
  function Classify(arg: string): Option<Opt>
  {
    Lookup(arg, 0)
  }

  /** Appends a path to the vector-store list of the current store name. */
  function AppendVectorStore(a: Args, path: string): (r: Args)
    ensures r == a.(vectorStores := r.vectorStores)
    ensures Text(a, CurVsName) in r.vectorStores
    ensures r.vectorStores[Text(a, CurVsName)] ==
      (if Text(a, CurVsName) in a.vectorStores then a.vectorStores[Text(a, CurVsName)] else []) + [path]
    ensures forall name :: name != Text(a, CurVsName) ==>
      (name in r.vectorStores <==> name in a.vectorStores)
      && (name in a.vectorStores ==> r.vectorStores[name] == a.vectorStores[name])
  {
    var name := Text(a, CurVsName);
    var prev := if name in a.vectorStores then a.vectorStores[name] else [];
    a.(vectorStores := a.vectorStores[name := prev + [path]])
  }

  /**
   * The --kv loop with the cursor `c` on the option itself: while two more
   * tokens follow, they are stored as a key and its value (a later key
   * overwrites an earlier one) and the cursor moves two on.
   */
  function KvRun(m: map<string, string>, argv: seq<string>, c: nat): (r: (map<string, string>, nat))
    ensures c <= r.1 && (r.1 - c) % 2 == 0
    ensures r.1 + 2 >= |argv| && (c < |argv| ==> r.1 < |argv|)
    decreases |argv| - c
  {
    if c + 2 < |argv| then KvRun(m[argv[c + 1] := argv[c + 2]], argv, c + 2) else (m, c)
  }

  /** The --kv loop as the front end runs it, inserting into the map in place. */
  method KvLoop(m: map<string, string>, argv: seq<string>, c0: nat)
    returns (additional: map<string, string>, c: nat)
    requires c0 < |argv|
    ensures (additional, c) == KvRun(m, argv, c0)
  {
    additional := m;
    c := c0;
    while c + 2 < |argv|
      invariant c0 <= c < |argv|
      invariant KvRun(additional, argv, c) == KvRun(m, argv, c0)
      decreases |argv| - c
    {
      additional := additional[argv[c + 1] := argv[c + 2]];
      c := c + 2;
    }
  }

  datatype ParseState = ParseState(args: Args, c: nat, hasExtending: bool)

  /** One pass of the loop body: go on from a new state, stop, or throw at a value. */
  datatype Outcome = Next(st: ParseState) | Stop | Fail(at: nat)

  function Step(st: ParseState, argv: seq<string>, env: Env): (o: Outcome)
    requires st.c < |argv|
    ensures o.Next? ==> st.c < o.st.c <= |argv| + 1
  {
    var a := st.args;
    var c := st.c;
    match Classify(argv[c])
    case Some(SetSwitch(w)) => Next(st.(args := a.(on := a.on + {w}), c := c + 1))
    case Some(HideBanner) => Next(st.(args := a.(on := a.on - {ShowBanner}), c := c + 1))
    case Some(Format) =>
      if c + 1 < |argv| then Next(st.(args := a.(format := FormatOf(argv[c + 1])), c := c + 2))
      else Next(st.(c := c + 2))
    case Some(SaveSessionPair) => SaveSessionStep(st, argv)
    case Some(Kv) =>
      var kv := KvRun(a.additional, argv, c);
      Next(st.(args := a.(additional := kv.0), c := kv.1 + 1))
    case Some(VectorStore) =>
      if c + 1 < |argv| then Next(st.(args := AppendVectorStore(a, argv[c + 1]), c := c + 2))
      else Next(st.(c := c + 2))
    case Some(Param(t)) => ParamStep(st, argv, env, t)
    case None => Stop
  }

  /** --save_session: a round count, then a file name; both or nothing. */
  function SaveSessionStep(st: ParseState, argv: seq<string>): (o: Outcome)
    requires st.c < |argv|
    ensures o.Next? ==> st.c < o.st.c <= |argv| + 1
  {
    if st.c + 2 < |argv| then SaveSessionStored(st, argv, StoI(argv[st.c + 1]))
    else Next(st.(c := st.c + 2))
  }

  /** The round count and file name of --save_session, stored. */
  function StoreSession(a: Args, rounds: int, path: string): (r: Args)
    ensures r.ints == a.ints[SaveSessionRounds := rounds] && r.text == a.text[SaveSession := path]
    ensures r == a.(ints := r.ints, text := r.text)
  {
    a.(ints := a.ints[SaveSessionRounds := rounds], text := a.text[SaveSession := path])
  }

  /** The pair stored once the round count `rounds` is read; a failed read throws. */
  function SaveSessionStored(st: ParseState, argv: seq<string>, rounds: Option<int>): (o: Outcome)
    requires st.c + 2 < |argv|
    ensures o.Next? ==> o.st.c == st.c + 3
  {
    match rounds
    case None => Fail(st.c + 1)
    case Some(n) =>
      Next(st.(args := StoreSession(st.args, n, argv[st.c + 2]), c := st.c + 3))
  }

  /** An option with one value, stored by Assign; --extending also sets the flag. */
  function ParamStep(st: ParseState, argv: seq<string>, env: Env, t: Target): (o: Outcome)
    requires st.c < |argv|
    ensures o.Next? ==> st.c < o.st.c <= |argv| + 1
  {
    var c := st.c;
    if c + 1 < |argv| then
      match Assign(st.args, t, argv[c + 1], env)
      case None => Fail(c + 1)
      case Some(a') => Next(ParseState(a', c + 2, st.hasExtending || t.AsExtending?))
    else Next(st.(c := c + 2))
  }

  /** The option token `opt` throws on its value `v`. */
  predicate Rejected(opt: string, v: string, env: Env)
  {
    match Classify(opt)
    case Some(SaveSessionPair) => StoI(v).None?
    case Some(Param(t)) => Rejects(t, v, env)
    case _ => false
  }

  /**
   * A pass overshoots argv only on a value-taking option in last place, stops
   * only on an unknown token, and throws only on the value after an option.
   */
  lemma StepEnds(st: ParseState, argv: seq<string>, env: Env)
    requires st.c < |argv|
    ensures var o := Step(st, argv, env);
      && (o.Next? && o.st.c == |argv| + 1 <==> st.c == |argv| - 1 && TakesValue(Classify(argv[st.c])))
      && (o.Stop? <==> Classify(argv[st.c]).None?)
      && (o.Fail? ==> o.at == st.c + 1 && o.at < |argv| && Rejected(argv[st.c], argv[o.at], env))
  {
  }

  /**
   * Only --extending sets the flag, only it changes the extending field, and
   * no option removes a field from the record.
   */
  lemma StepKeepsExtending(st: ParseState, argv: seq<string>, env: Env)
    requires st.c < |argv|
    ensures var o := Step(st, argv, env);
      o.Next? ==>
        (st.hasExtending ==> o.st.hasExtending)
        && (!o.st.hasExtending ==> o.st.args.extending == st.args.extending)
        && (Complete(st.args) ==> Complete(o.st.args))
  {
    match Classify(argv[st.c])
    case Some(SetSwitch(_)) =>
    case Some(HideBanner) =>
    case Some(Format) =>
    case Some(SaveSessionPair) =>
    case Some(Kv) =>
    case Some(VectorStore) =>
    case Some(Param(t)) =>
    case None =>
  }

  /** Where the loop ends: its state, and whether a conversion threw. */
  datatype Parsed = Parsed(args: Args, stop: nat, hasExtending: bool, failed: bool)

  function Run(st: ParseState, argv: seq<string>, env: Env): Parsed
    requires st.c <= |argv| + 1
    decreases |argv| + 1 - st.c
  {
    if st.c >= |argv| then Parsed(st.args, st.c, st.hasExtending, false)
    else
      match Step(st, argv, env)
      case Next(st') => Run(st', argv, env)
      case Stop => Parsed(st.args, st.c, st.hasExtending, false)
      case Fail(at) => Parsed(st.args, at, st.hasExtending, true)
  }

  lemma RunNext(st: ParseState, argv: seq<string>, env: Env)
    requires st.c < |argv| && Step(st, argv, env).Next?
    ensures Run(st, argv, env) == Run(Step(st, argv, env).st, argv, env)
  {
  }

  /**
   * The whole parse: the seed is drawn first, the loop runs from argv[1], and
   * when it ends without an exception a loaded session with no --extending
   * ever seen turns extending off.
   */
  function ParseArgsSpec(a: Args, argv: seq<string>, env: Env, hasExtending: bool, randomSeed: int): Parsed
  {
    var r := Run(ParseState(a.(ints := a.ints[Seed := randomSeed]), 1, hasExtending), argv, env);
    if !r.failed && !r.hasExtending && |Text(r.args, LoadSession)| > 0 then
      r.(args := r.args.(extending := NoExtending))
    else r
  }

  /** The loop, started from `st`, passes through a state with its cursor at `c`. */
  predicate Visits(st: ParseState, argv: seq<string>, env: Env, c: nat)
    requires st.c <= |argv| + 1
    decreases |argv| + 1 - st.c
  {
    st.c == c || (st.c < |argv| && Step(st, argv, env).Next? && Visits(Step(st, argv, env).st, argv, env, c))
  }

  /**
   * Where the loop stops: never more than one past the end, and one past the
   * end exactly when it reaches a value-taking option in last place; it does
   * not throw then.
   */
  lemma {:induction false} RunBound(st: ParseState, argv: seq<string>, env: Env)
    requires 1 <= st.c <= |argv|
    ensures var r := Run(st, argv, env);
      && st.c <= r.stop <= |argv| + 1
      && (r.stop == |argv| + 1 <==>
            Visits(st, argv, env, |argv| - 1) && TakesValue(Classify(argv[|argv| - 1])))
      && (r.stop == |argv| + 1 ==> !r.failed)
    decreases |argv| + 1 - st.c
  {
    if st.c < |argv| {
      StepEnds(st, argv, env);
      match Step(st, argv, env)
      case Next(st') =>
        RunNext(st, argv, env);
        assert Visits(st, argv, env, |argv| - 1) <==> st.c == |argv| - 1 || Visits(st', argv, env, |argv| - 1);
        if st'.c <= |argv| {
          RunBound(st', argv, env);
        }
      case Stop =>
        RunStopOnStop(st, argv, env);
      case Fail(at) =>
        RunStopOnFail(st, argv, env);
    }
  }

  /**
   * On an exception the loop stops at the value the option before it could
   * not convert; otherwise at the end or at the first token that is no option.
   */
  predicate StopsWell(r: Parsed, argv: seq<string>, env: Env)
  {
    && (r.failed ==> 2 <= r.stop < |argv| && Rejected(argv[r.stop - 1], argv[r.stop], env))
    && (!r.failed ==> r.stop >= |argv| || Classify(argv[r.stop]).None?)
  }

  lemma RunStopOnStop(st: ParseState, argv: seq<string>, env: Env)
    requires st.c < |argv| && Step(st, argv, env).Stop?
    ensures Run(st, argv, env) == Parsed(st.args, st.c, st.hasExtending, false)
  {
  }

  lemma RunStopOnFail(st: ParseState, argv: seq<string>, env: Env)
    requires st.c < |argv| && Step(st, argv, env).Fail?
    ensures Run(st, argv, env) == Parsed(st.args, Step(st, argv, env).at, st.hasExtending, true)
  {
  }

  lemma {:induction false} RunStop(st: ParseState, argv: seq<string>, env: Env)
    requires 1 <= st.c <= |argv|
    ensures StopsWell(Run(st, argv, env), argv, env)
    decreases |argv| + 1 - st.c
  {
    if st.c < |argv| {
      StepEnds(st, argv, env);
      var o := Step(st, argv, env);
      match o
      case Next(st') =>
        RunNext(st, argv, env);
        if st'.c <= |argv| {
          RunStop(st', argv, env);
        }
      case Stop =>
        RunStopOnStop(st, argv, env);
      case Fail(at) =>
        RunStopOnFail(st, argv, env);
    }
  }

  lemma {:induction false} RunKeepsExtending(st: ParseState, argv: seq<string>, env: Env)
    requires st.c <= |argv| + 1
    ensures var r := Run(st, argv, env);
      && (st.hasExtending ==> r.hasExtending)
      && (!r.hasExtending ==> r.args.extending == st.args.extending)
      && (Complete(st.args) ==> Complete(r.args))
    decreases |argv| + 1 - st.c
  {
    if st.c < |argv| {
      StepKeepsExtending(st, argv, env);
      var o := Step(st, argv, env);
      if o.Next? {
        RunKeepsExtending(o.st, argv, env);
      }
    }
  }

  /** The parse's result index, for an argv holding at least the program name. */
  lemma ParseArgsEnds(a: Args, argv: seq<string>, env: Env, hasExtending: bool, randomSeed: int)
    requires |argv| >= 1
    ensures var r := ParseArgsSpec(a, argv, env, hasExtending, randomSeed);
      && 1 <= r.stop <= |argv| + 1
      && (r.stop == |argv| + 1 <==>
            Visits(ParseState(a.(ints := a.ints[Seed := randomSeed]), 1, hasExtending), argv, env, |argv| - 1)
            && TakesValue(Classify(argv[|argv| - 1])))
      && (r.stop == |argv| + 1 ==> !r.failed)
      && (r.failed ==> 2 <= r.stop < |argv| && Rejected(argv[r.stop - 1], argv[r.stop], env))
      && (!r.failed ==> r.stop >= |argv| || Classify(argv[r.stop]).None?)
  {
    var st0 := ParseState(a.(ints := a.ints[Seed := randomSeed]), 1, hasExtending);
    var r := Run(st0, argv, env);
    var p := ParseArgsSpec(a, argv, env, hasExtending, randomSeed);
    assert p.stop == r.stop && p.failed == r.failed;
    RunBound(st0, argv, env);
    RunStop(st0, argv, env);
    SameStop(r, p, argv, env);
  }

  lemma SameStop(r: Parsed, p: Parsed, argv: seq<string>, env: Env)
    requires p.stop == r.stop && p.failed == r.failed && StopsWell(r, argv, env)
    ensures StopsWell(p, argv, env)
  {
  }

  /**
   * Unless --extending was seen (now or in an earlier parse), extending keeps
   * its value, except that a session to load turns it off; a Complete record
   * stays Complete.
   */
  lemma ParseArgsExtending(a: Args, argv: seq<string>, env: Env, hasExtending: bool, randomSeed: int)
    ensures var r := ParseArgsSpec(a, argv, env, hasExtending, randomSeed);
      && (hasExtending ==> r.hasExtending)
      && (!r.failed && !r.hasExtending ==>
            r.args.extending == (if |Text(r.args, LoadSession)| > 0 then NoExtending else a.extending))
      && (Complete(a) ==> Complete(r.args))
  {
    RunKeepsExtending(ParseState(a.(ints := a.ints[Seed := randomSeed]), 1, hasExtending), argv, env);
  }

  /** The token after position k: the key of a --kv pair starting there. */
  function KeyAfter(argv: seq<string>, k: nat): string
    requires k + 1 < |argv|
  {
    argv[k + 1]
  }

  /** A key no --kv pair names keeps its entry. */
  lemma {:induction false} KvKeeps(m: map<string, string>, argv: seq<string>, c: nat, key: string)
    requires c < |argv|
    requires forall k :: c <= k < KvRun(m, argv, c).1 && (k - c) % 2 == 0 ==> KeyAfter(argv, k) != key
    ensures var r := KvRun(m, argv, c).0;
      (key in r <==> key in m) && (key in m ==> r[key] == m[key])
    decreases |argv| - c
  {
    if c + 2 < |argv| {
      var m' := m[argv[c + 1] := argv[c + 2]];
      assert KvRun(m, argv, c) == KvRun(m', argv, c + 2);
      assert KeyAfter(argv, c) != key;
      forall k | c + 2 <= k < KvRun(m', argv, c + 2).1 && (k - (c + 2)) % 2 == 0
        ensures KeyAfter(argv, k) != key
      {
        assert (k - c) % 2 == 0;
      }
      KvKeeps(m', argv, c + 2, key);
    }
  }

  /** A key absent from the pairs after `j` (counted from `c`) is absent from those counted from c + 2. */
  lemma NoLaterKey(argv: seq<string>, c: nat, j: nat, end: nat, key: string)
    requires end < |argv|
    requires forall k :: j < k < end && (k - c) % 2 == 0 ==> KeyAfter(argv, k) != key
    ensures forall k :: j < k < end && (k - (c + 2)) % 2 == 0 ==> KeyAfter(argv, k) != key
  {
    forall k | j < k < end && (k - (c + 2)) % 2 == 0
      ensures KeyAfter(argv, k) != key
    {
      assert (k - c) % 2 == 0;
    }
  }

  /** The value of a --kv key is the one from its last pair. */
  lemma {:induction false} KvLastWins(m: map<string, string>, argv: seq<string>, c: nat, j: nat)
    requires c < |argv|
    requires c <= j < KvRun(m, argv, c).1 && (j - c) % 2 == 0
    requires forall k :: j < k < KvRun(m, argv, c).1 && (k - c) % 2 == 0 ==> KeyAfter(argv, k) != argv[j + 1]
    ensures j + 2 < |argv|
    ensures argv[j + 1] in KvRun(m, argv, c).0 && KvRun(m, argv, c).0[argv[j + 1]] == argv[j + 2]
    decreases |argv| - c
  {
    var end := KvRun(m, argv, c).1;
    assert c + 2 < |argv|;
    var m' := m[argv[c + 1] := argv[c + 2]];
    assert KvRun(m', argv, c + 2) == KvRun(m, argv, c);
    NoLaterKey(argv, c, j, end, argv[j + 1]);
    if j == c {
      KvKeeps(m', argv, c + 2, argv[j + 1]);
    } else {
      KvLastWins(m', argv, c + 2, j);
    }
  }

  /** How one pass of the loop body ends. */
  datatype Control = Continue | Break | Thrown

  /** The pass ended as `control` says, in the state Step gives. */
  predicate Reports(o: Outcome, args0: Args, hasExtending0: bool,
                    args: Args, c: nat, hasExtending: bool, control: Control)
  {
    match control
    case Continue => o == Next(ParseState(args, c, hasExtending))
    case Break => o == Stop && args == args0 && hasExtending == hasExtending0
    case Thrown => o == Fail(c) && args == args0 && hasExtending == hasExtending0
  }

  /**
   * One pass of the loop body: classify argv[c], consume the option and its
   * values, and advance the cursor past them.
   */
  method ParseOption(args0: Args, argv: seq<string>, c0: nat, hasExtending0: bool, env: Env)
    returns (args: Args, c: nat, hasExtending: bool, control: Control)
    requires c0 < |argv|
    ensures Reports(Step(ParseState(args0, c0, hasExtending0), argv, env), args0, hasExtending0,
                    args, c, hasExtending, control)
    ensures control == Break ==> c == c0
  {
    ghost var st := ParseState(args0, c0, hasExtending0);
    args, c, hasExtending, control := args0, c0, hasExtending0, Continue;
    match Classify(argv[c]) {
      case Some(SetSwitch(w)) =>
        args := args.(on := args.on + {w});
        c := c + 1;
        assert Step(st, argv, env) == Next(ParseState(args, c, hasExtending));
      case Some(HideBanner) =>
        args := args.(on := args.on - {ShowBanner});
        c := c + 1;
        assert Step(st, argv, env) == Next(ParseState(args, c, hasExtending));
      case Some(Format) =>
        c := c + 1;
        if c < |argv| {
          args := args.(format := FormatOf(argv[c]));
        }
        c := c + 1;
        assert Step(st, argv, env) == Next(ParseState(args, c, hasExtending));
      case Some(SaveSessionPair) =>
        assert Step(st, argv, env) == SaveSessionStep(st, argv);
        args, c, control := ParseSaveSession(args0, argv, c0, hasExtending0, env);
      case Some(Kv) =>
        var additional;
        additional, c := KvLoop(args.additional, argv, c);
        args := args.(additional := additional);
        c := c + 1;
        assert Step(st, argv, env) == Next(ParseState(args, c, hasExtending));
      case Some(VectorStore) =>
        c := c + 1;
        if c < |argv| {
          args := AppendVectorStore(args, argv[c]);
        }
        c := c + 1;
        assert Step(st, argv, env) == Next(ParseState(args, c, hasExtending));
      case Some(Param(t)) =>
        assert Step(st, argv, env) == ParamStep(st, argv, env, t);
        args, c, hasExtending, control := ParseParam(args0, argv, c0, hasExtending0, env, t);
      case None =>
        control := Break;
    }
  }

  /** --save_session: a round count and a file name. */
  method ParseSaveSession(args0: Args, argv: seq<string>, c0: nat, hasExtending0: bool, env: Env)
    returns (args: Args, c: nat, control: Control)
    requires c0 < |argv|
    ensures control != Break
    ensures Reports(SaveSessionStep(ParseState(args0, c0, hasExtending0), argv), args0, hasExtending0,
                    args, c, hasExtending0, control)
  {
    ghost var st := ParseState(args0, c0, hasExtending0);
    args, c, control := args0, c0 + 1, Continue;
    if c + 1 < |argv| {
      var n := StoI(argv[c]);
      assert SaveSessionStep(st, argv) == SaveSessionStored(st, argv, n);
      if n.None? {
        control := Thrown;
        return;
      }
      args := StoreSession(args, n.value, argv[c + 1]);
      c := c + 1;
    }
    c := c + 1;
  }

  /** An option taking one value, converted and stored by Assign. */
  method ParseParam(args0: Args, argv: seq<string>, c0: nat, hasExtending0: bool, env: Env, t: Target)
    returns (args: Args, c: nat, hasExtending: bool, control: Control)
    requires c0 < |argv|
    ensures control != Break
    ensures Reports(ParamStep(ParseState(args0, c0, hasExtending0), argv, env, t), args0, hasExtending0,
                    args, c, hasExtending, control)
  {
    args, c, hasExtending, control := args0, c0 + 1, hasExtending0, Continue;
    if c < |argv| {
      if t.AsExtending? {
        hasExtending := true;
      }
      var r := Assign(args, t, argv[c], env);
      if r.None? {
        control := Thrown;
        return;
      }
      args := r.value;
    }
    c := c + 1;
  }

  /** The argument loop, updating the record and the flag in place. */
  method ParseArgs(a: Args, argv: seq<string>, env: Env, hasExtending0: bool, randomSeed: int)
    returns (args: Args, c: nat, hasExtending: bool)
    ensures var r := ParseArgsSpec(a, argv, env, hasExtending0, randomSeed);
      args == r.args && c == r.stop && hasExtending == r.hasExtending
  {
    args := a.(ints := a.ints[Seed := randomSeed]);
    hasExtending := hasExtending0;
    c := 1;
    ghost var start := ParseState(args, c, hasExtending);
    while c < |argv|
      invariant c <= |argv| + 1
      invariant Run(ParseState(args, c, hasExtending), argv, env) == Run(start, argv, env)
      decreases |argv| + 1 - c
    {
      ghost var before := ParseState(args, c, hasExtending);
      var args', c', hasExtending', control := ParseOption(args, argv, c, hasExtending, env);
      if control == Break {
        break;
      } else if control == Thrown {
        c := c';
        return;
      }
      RunNext(before, argv, env);
      args, c, hasExtending := args', c', hasExtending';
    }
    if !hasExtending && |Text(args, LoadSession)| > 0 {
      args := args.(extending := NoExtending);
    }
  }
}
