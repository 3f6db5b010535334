// The per-session state behind the C binding: the chat history, the
// single-flight guard of the asynchronous calls, restart and session
// restore, history append, continuing the assistant's last message and the
// formatting of token ids. The pipeline itself (generation, tokenization,
// session files) is outside the model: what it returns is a parameter and
// what is asked of it is recorded in `calls`.
module ChatApi {
  import opened Wrappers
  import opened CInt
  import opened Decimal

  /** The roles a caller may give a message, with their binding codes 2, 3, 4. */
  datatype MsgRole = User | Assistant | Tool

  function RoleCode(r: MsgRole): int
  {
    match r
    case User => 2
    case Assistant => 3
    case Tool => 4
  }

  /** The first code past the last role (the role enumeration ends after Tool). */
  const ROLE_LAST: int := 5

  /** The role of a binding code; codes outside [User, LAST) have none. */
  function RoleOfCode(code: int): (r: Option<MsgRole>)
    ensures r.Some? <==> RoleCode(User) <= code < ROLE_LAST
    ensures r.Some? ==> RoleCode(r.value) == code
  {
    if code == 2 then Some(User)
    else if code == 3 then Some(Assistant)
    else if code == 4 then Some(Tool)
    else None
  }

  lemma RoleCodeRoundTrip(r: MsgRole)
    ensures RoleOfCode(RoleCode(r)) == Some(r)
  {
  }

  datatype Message = Message(content: string, role: MsgRole)

  datatype Purpose = ChatPurpose | TextEmbedding | Ranker | OtherPurpose

  /** What the session asks of its pipeline. */
  datatype PipelineCall =
    | Rewind(nPast: int)
    | RestartPipeline
    | SetSystemPrompt(prompt: string)
    | ChatContinue(input: string)

  const ERR_ASYNC_ONGOING: int := INT_MIN

  // ---- restart ----

  function Min(a: int, b: int): int { if a <= b then a else b }

  /**
   * The history after a restart: with a restored session (`sessHistLen`
   * positive) and no new system prompt, the first `sessHistLen` messages;
   * otherwise nothing.
   */
  function RestartedHistory(history: seq<Message>, sessHistLen: int, keepSession: bool): (h: seq<Message>)
    ensures |h| <= |history| && h == history[..|h|]
    ensures keepSession && sessHistLen > 0 ==> |h| == Min(|history|, sessHistLen)
    ensures !(keepSession && sessHistLen > 0) ==> h == []
  {
    if sessHistLen > 0 && keepSession then
      (if |history| > sessHistLen then history[..sessHistLen] else history)
    else []
  }

  /** Restarting after a session restore drops exactly what was added since. */
  lemma RestartRestoresSession(restored: seq<Message>, added: seq<Message>)
    requires |restored| > 0
    ensures RestartedHistory(restored + added, |restored|, true) == restored
  {
    assert (restored + added)[..|restored|] == restored;
  }

  lemma RestartIdempotent(history: seq<Message>, sessHistLen: int, keepSession: bool)
    ensures var h := RestartedHistory(history, sessHistLen, keepSession);
      RestartedHistory(h, sessHistLen, keepSession) == h
  {
  }

  // ---- ai_continue ----

  /**
   * The result code of continuing the assistant's message: -1 outside prompt
   * mode or for a loaded model whose purpose is not chat, -2 on an empty
   * history, -3 when the last message is not the assistant's, else 0.
   */
  function AiContinueCode(isPrompt: bool, loaded: bool, purpose: Purpose, history: seq<Message>): (r: int)
    ensures r in {-3, -2, -1, 0}
    ensures r == -1 <==> !isPrompt || (loaded && purpose != ChatPurpose)
    ensures r == 0 <==> r != -1 && |history| > 0 && history[|history| - 1].role == Assistant
    ensures r == -2 ==> history == []
  {
    if !isPrompt then -1
    else if loaded && purpose != ChatPurpose then -1
    else if |history| < 1 then -2
    else if history[|history| - 1].role != Assistant then -3
    else 0
  }

  // ---- token id formatting ----

  /** The separator written before id `i`: a line break before every 16th id but the first. */
  function Break(i: nat): string
  {
    if i > 0 && i % 16 == 0 then "\n" else ""
  }

  /** Each id as `ostream << int` prints it. */
  function Printed(ids: seq<int>): (ps: seq<string>)
    ensures |ps| == |ids|
    ensures forall i :: 0 <= i < |ids| ==> ps[i] == IntToString(ids[i])
  {
    seq(|ids|, i requires 0 <= i < |ids| => IntToString(ids[i]))
  }

  /**
   * The text for the first `n` printed ids of a list whose last id is written
   * apart: each id with its line break in front and a comma after it.
   */
  function IdsPrefix(ps: seq<string>, n: nat): string
    requires n <= |ps|
  {
    if n == 0 then "" else IdsPrefix(ps, n - 1) + Break(n - 1) + ps[n - 1] + ","
  }

  /** Token ids as printed: comma separated, 16 per line, no comma after the last. */
  function TokenIdsText(ids: seq<int>): string
    requires |ids| > 0
  {
    var ps := Printed(ids);
    IdsPrefix(ps, |ps| - 1) + ps[|ps| - 1]
  }

  /** Writes the ids one by one, as the output string stream does. */
  method FormatTokenIds(ids: seq<int>) returns (s: string)
    requires |ids| > 0
    ensures s == TokenIdsText(ids)
  {
    ghost var ps := Printed(ids);
    s := "";
    var i := 0;
    while i < |ids| - 1
      invariant 0 <= i <= |ids| - 1
      invariant s == IdsPrefix(ps, i)
    {
      ghost var before := s;
      if i > 0 && i % 16 == 0 {
        s := s + "\n";
      }
      ghost var broken := s;
      s := s + IntToString(ids[i]) + ",";
      PieceAppended(ps, i, before, broken, s);
      i := i + 1;
    }
    s := s + IntToString(ids[|ids| - 1]);
  }

  lemma PieceAppended(ps: seq<string>, i: nat, before: string, broken: string, s: string)
    requires i < |ps| && before == IdsPrefix(ps, i)
    requires broken == if i > 0 && i % 16 == 0 then before + "\n" else before
    requires s == broken + ps[i] + ","
    ensures s == IdsPrefix(ps, i + 1)
  {
    if !(i > 0 && i % 16 == 0) {
      assert before + Break(i) == before;
    }
  }

  // Reading the text back: split at commas and stoi each field (stoi skips
  // the line breaks, which are white space).

  /** The index of the last `ch` in `s`. */
  function FindLast(s: string, ch: char): (r: Option<nat>)
    ensures r.Some? ==> r.value < |s| && s[r.value] == ch && forall j :: r.value < j < |s| ==> s[j] != ch
    ensures r.None? ==> ch !in s
  {
    if s == [] then None
    else if s[|s| - 1] == ch then Some(|s| - 1)
    else FindLast(s[..|s| - 1], ch)
  }

  /** The comma-separated fields of `s`, at least one. */
  function SplitCommas(s: string): (fields: seq<string>)
    ensures |fields| >= 1
    decreases |s|
  {
    match FindLast(s, ',')
    case None => [s]
    case Some(j) => SplitCommas(s[..j]) + [s[j + 1..]]
  }

  /** stoi on every field; None as soon as one throws. */
  function ReadFields(fields: seq<string>): Option<seq<int>>
  {
    if fields == [] then Some([])
    else match (ReadFields(fields[..|fields| - 1]), StoI(fields[|fields| - 1]))
      case (Some(xs), Some(x)) => Some(xs + [x])
      case _ => None
  }

  function ParseTokenIds(text: string): Option<seq<int>>
  {
    ReadFields(SplitCommas(text))
  }

  /** Fields joined with commas. */
  function JoinCommas(fields: seq<string>): string
    requires |fields| >= 1
  {
    if |fields| == 1 then fields[0] else JoinCommas(fields[..|fields| - 1]) + "," + fields[|fields| - 1]
  }

  predicate NoCommas(fields: seq<string>)
  {
    forall i :: 0 <= i < |fields| ==> ',' !in fields[i]
  }

  /** The comma between the joined head and a comma-free last field is the last comma. */
  lemma LastCommaOfJoin(c: string, t: string, s: string)
    requires ',' !in t && s == c + [','] + t
    ensures FindLast(s, ',') == Some(|c|)
    ensures s[..|c|] == c && s[|c| + 1..] == t
  {
    var j := |c|;
    assert s[j] == ',';
    assert forall k :: j < k < |s| ==> s[k] == t[k - j - 1];
  }

  /** Splitting undoes joining when no field holds a comma. */
  lemma {:induction false} SplitJoin(fields: seq<string>)
    requires |fields| >= 1 && NoCommas(fields)
    ensures SplitCommas(JoinCommas(fields)) == fields
    decreases |fields|
  {
    var s := JoinCommas(fields);
    if |fields| > 1 {
      var init := fields[..|fields| - 1];
      var t := fields[|fields| - 1];
      var c := JoinCommas(init);
      assert s == c + [','] + t;
      LastCommaOfJoin(c, t, s);
      SplitJoin(init);
    }
  }

  /** The fields of the first `n` printed ids: each id after its line break. */
  function Fields(ps: seq<string>, n: nat): (fs: seq<string>)
    requires n <= |ps|
    ensures |fs| == n
  {
    if n == 0 then [] else Fields(ps, n - 1) + [Break(n - 1) + ps[n - 1]]
  }

  lemma JoinAppend(fs: seq<string>, f: string)
    requires |fs| > 0
    ensures JoinCommas(fs + [f]) == JoinCommas(fs) + "," + f
  {
    assert (fs + [f])[..|fs|] == fs;
  }

  /** The loop's text followed by a last field is the fields joined with commas. */
  lemma {:induction false} PrefixJoin(ps: seq<string>, n: nat, t: string)
    requires n <= |ps|
    ensures IdsPrefix(ps, n) + t == JoinCommas(Fields(ps, n) + [t])
  {
    if n == 0 {
      assert Fields(ps, n) + [t] == [t];
    } else {
      var b, x := Break(n - 1), ps[n - 1];
      PrefixJoin(ps, n - 1, b + x);
      JoinAppend(Fields(ps, n), t);
      PrefixJoinStep(IdsPrefix(ps, n - 1), b, x, t);
    }
  }

  lemma PrefixJoinStep(p: string, b: string, x: string, t: string)
    ensures p + b + x + "," + t == (p + (b + x)) + "," + t
  {
  }

  /** A printed int has no comma. */
  lemma IntToStringPlain(x: int)
    ensures ',' !in IntToString(x)
  {
    var d := NatDigits(Abs(x));
    assert forall i :: 0 <= i < |d| ==> IsDigit(d[i]);
  }

  lemma FieldsNoCommas(ps: seq<string>, n: nat, t: string)
    requires n <= |ps| && NoCommas(ps) && ',' !in t
    ensures NoCommas(Fields(ps, n) + [t])
  {
    forall i | 0 <= i < n
      ensures ',' !in Fields(ps, n)[i]
    {
      FieldsIndex(ps, n, i);
    }
  }

  lemma {:induction false} FieldsIndex(ps: seq<string>, n: nat, i: nat)
    requires i < n <= |ps|
    ensures Fields(ps, n)[i] == Break(i) + ps[i]
    decreases n
  {
    if i < n - 1 {
      FieldsIndex(ps, n - 1, i);
    }
  }

  /** stoi skips the line break in front of an id. */
  lemma StoIField(i: nat, p: string, x: int)
    requires StoI(p) == Some(x)
    ensures StoI(Break(i) + p) == Some(x)
  {
    if i > 0 && i % 16 == 0 {
      SkipLineBreak(Break(i) + p, p);
    } else {
      assert Break(i) + p == p;
    }
  }

  lemma SkipLineBreak(s: string, p: string)
    requires s == "\n" + p
    ensures SkipSpace(s) == SkipSpace(p)
  {
    assert s[1..] == p;
  }

  lemma TakeSnoc(xs: seq<int>, n: nat)
    requires 0 < n <= |xs|
    ensures xs[..n - 1] + [xs[n - 1]] == xs[..n]
  {
  }

  lemma ReadFieldsAppend(fs: seq<string>, f: string, xs: seq<int>, x: int)
    requires ReadFields(fs) == Some(xs) && StoI(f) == Some(x)
    ensures ReadFields(fs + [f]) == Some(xs + [x])
  {
    assert (fs + [f])[..|fs|] == fs;
  }

  /** Each printed id reads back as its id. */
  predicate ReadsBack(ps: seq<string>, ids: seq<int>)
  {
    |ps| == |ids| && forall i :: 0 <= i < |ps| ==> StoI(ps[i]) == Some(ids[i])
  }

  lemma {:induction false} ReadFieldsOf(ps: seq<string>, ids: seq<int>, n: nat)
    requires n <= |ps| && ReadsBack(ps, ids)
    ensures ReadFields(Fields(ps, n)) == Some(ids[..n])
  {
    if n > 0 {
      ReadFieldsOf(ps, ids, n - 1);
      StoIField(n - 1, ps[n - 1], ids[n - 1]);
      ReadFieldsAppend(Fields(ps, n - 1), Break(n - 1) + ps[n - 1], ids[..n - 1], ids[n - 1]);
      TakeSnoc(ids, n);
    }
  }

  /** The printed ids hold no comma, and stoi reads each back. */
  lemma PrintedPlain(ids: seq<int>)
    requires forall i :: 0 <= i < |ids| ==> IsInt32(ids[i])
    ensures NoCommas(Printed(ids)) && ReadsBack(Printed(ids), ids)
  {
    var ps := Printed(ids);
    forall i | 0 <= i < |ids|
      ensures ',' !in ps[i] && StoI(ps[i]) == Some(ids[i])
    {
      IntToStringPlain(ids[i]);
      StoIRoundTrip(ids[i]);
    }
  }

  /** The printed text splits at its commas into the fields. */
  lemma SplitPrinted(ps: seq<string>, t: string)
    requires |ps| > 0 && NoCommas(ps) && t == IdsPrefix(ps, |ps| - 1) + ps[|ps| - 1]
    ensures SplitCommas(t) == Fields(ps, |ps| - 1) + [ps[|ps| - 1]]
  {
    var n := |ps| - 1;
    PrefixJoin(ps, n, ps[n]);
    FieldsNoCommas(ps, n, ps[n]);
    SplitJoin(Fields(ps, n) + [ps[n]]);
  }

  /** The fields read back as the ids. */
  lemma ReadPrinted(ps: seq<string>, ids: seq<int>)
    requires |ps| > 0 && ReadsBack(ps, ids)
    ensures ReadFields(Fields(ps, |ps| - 1) + [ps[|ps| - 1]]) == Some(ids)
  {
    var n := |ps| - 1;
    ReadFieldsOf(ps, ids, n);
    ReadFieldsAppend(Fields(ps, n), ps[n], ids[..n], ids[n]);
    TakeSnoc(ids, |ids|);
    assert ids[..|ids|] == ids;
  }

  /** The printed token ids read back as the same ids. */
  lemma TokenIdsRoundTrip(ids: seq<int>)
    requires |ids| > 0
    requires forall i :: 0 <= i < |ids| ==> IsInt32(ids[i])
    ensures ParseTokenIds(TokenIdsText(ids)) == Some(ids)
  {
    var ps := Printed(ids);
    PrintedPlain(ids);
    SplitPrinted(ps, TokenIdsText(ids));
    ReadPrinted(ps, ids);
  }

  // ---- the session object ----

  class Chat {
    var history: seq<Message>
    /** Whether the streamer is waiting for input (no generation running). */
    var isPrompt: bool
    var loaded: bool
    var purpose: Purpose
    var sessNPast: int
    var sessHistLen: int
    var isAsyncBusy: bool
    var asyncResultInt: int
    /** The requests made of the pipeline, oldest first. */
    var calls: seq<PipelineCall>

    /** A new session, with a streamer in the given mode over a pipeline of the given purpose. */
    constructor(isPrompt: bool, loaded: bool, purpose: Purpose)
      ensures this.isPrompt == isPrompt && this.loaded == loaded && this.purpose == purpose
      ensures history == [] && calls == []
      ensures sessNPast == -1 && sessHistLen == -1
      ensures !isAsyncBusy && asyncResultInt == 0
    {
      history := [];
      this.isPrompt := isPrompt;
      this.loaded := loaded;
      this.purpose := purpose;
      sessNPast := -1;
      sessHistLen := -1;
      isAsyncBusy := false;
      asyncResultInt := 0;
      calls := [];
    }

    /** The last asynchronous result, or INT_MIN while a call is still running. */
    function AsyncResultInt(): (r: int)
      reads this
      ensures isAsyncBusy ==> r == ERR_ASYNC_ONGOING
      ensures !isAsyncBusy ==> r == asyncResultInt
    {
      if isAsyncBusy then ERR_ASYNC_ONGOING else asyncResultInt
    }

    /** The caller's half of an asynchronous call: -1 while one is running, else 0 and busy. */
    method AsyncStart() returns (r: int)
      modifies this`isAsyncBusy
      ensures r == -1 <==> old(isAsyncBusy)
      ensures r == 0 <==> !old(isAsyncBusy)
      ensures isAsyncBusy
    {
      if isAsyncBusy {
        return -1;
      }
      isAsyncBusy := true;
      return 0;
    }

    /** The worker's half: store the call's result and clear the busy flag. */
    method AsyncComplete(result: int)
      requires isAsyncBusy
      modifies this`isAsyncBusy, this`asyncResultInt
      ensures !isAsyncBusy && asyncResultInt == result
      ensures AsyncResultInt() == result
    {
      asyncResultInt := result;
      isAsyncBusy := false;
    }

    /** Restart with a new system prompt, or (None) back to the restored session. */
    method Restart(sysPrompt: Option<string>)
      modifies this`history, this`calls
      ensures !old(isPrompt) ==> history == old(history) && calls == old(calls)
      ensures old(isPrompt) ==>
        history == RestartedHistory(old(history), sessHistLen, sysPrompt.None?)
      ensures old(isPrompt) && sessHistLen > 0 && sysPrompt.None? ==>
        calls == old(calls) + [Rewind(sessNPast)]
      ensures old(isPrompt) && !(sessHistLen > 0 && sysPrompt.None?) ==>
        calls == old(calls) + [RestartPipeline]
          + (if sysPrompt.Some? then [SetSystemPrompt(sysPrompt.value)] else [])
    {
      if !isPrompt {
        return;
      }
      if sessHistLen > 0 && sysPrompt.None? {
        if |history| > sessHistLen {
          history := history[..sessHistLen];
        }
        calls := calls + [Rewind(sessNPast)];
      } else {
        history := [];
        calls := calls + [RestartPipeline];
        if sysPrompt.Some? {
          calls := calls + [SetSystemPrompt(sysPrompt.value)];
        }
      }
    }

    /** Appends a message when prompting and the role code is valid; ignores it otherwise. */
    method HistoryAppend(roleType: int, text: string)
      modifies this`history
      ensures isPrompt && RoleOfCode(roleType).Some? ==>
        history == old(history) + [Message(text, RoleOfCode(roleType).value)]
      ensures !(isPrompt && RoleOfCode(roleType).Some?) ==> history == old(history)
    {
      if !isPrompt {
        return;
      }
      if roleType < RoleCode(User) || roleType >= ROLE_LAST {
        return;
      }
      history := history + [Message(text, RoleOfCode(roleType).value)];
    }

    /**
     * Continues the assistant's last message with `input`; `more` is the
     * text the pipeline generates for it.
     */
    method AiContinue(input: string, more: string) returns (r: int)
      modifies this`history, this`calls
      ensures r == AiContinueCode(isPrompt, loaded, purpose, old(history))
      ensures r != 0 ==> history == old(history) && calls == old(calls)
      ensures r == 0 ==> calls == old(calls) + [ChatContinue(input)]
      ensures r == 0 ==>
        (&& |history| == |old(history)| > 0
         && history[..|history| - 1] == old(history)[..|history| - 1]
         && history[|history| - 1] == Message(old(history)[|history| - 1].content + more, Assistant))
    {
      if !isPrompt {
        return -1;
      }
      if loaded && purpose != ChatPurpose {
        return -1;
      }
      if |history| < 1 {
        return -2;
      }
      if history[|history| - 1].role != Assistant {
        return -3;
      }
      calls := calls + [ChatContinue(input)];
      var last := |history| - 1;
      history := history[last := Message(history[last].content + more, Assistant)];
      return 0;
    }

    /**
     * Restores a saved session: the pipeline reports `result` and leaves the
     * history `restored` and the position `nPast`; on success the restored
     * length is remembered for Restart.
     */
    method LoadSession(result: int, restored: seq<Message>, nPast: int) returns (r: int)
      modifies this`history, this`sessNPast, this`sessHistLen
      ensures !isPrompt ==>
        (r == -1 && history == old(history) && sessNPast == old(sessNPast) && sessHistLen == old(sessHistLen))
      ensures isPrompt ==> r == result && history == restored && sessNPast == nPast
      ensures isPrompt && result == 0 ==> sessHistLen == |restored|
      ensures !(isPrompt && result == 0) ==> sessHistLen == old(sessHistLen)
    {
      if !isPrompt {
        return -1;
      }
      history := restored;
      sessNPast := nPast;
      if result == 0 {
        sessHistLen := |history|;
      }
      return result;
    }

    /**
     * Tokenizes through the pipeline (which yields `ids`): -1 when no model
     * is loaded, else the number of ids, with the line handed to the streamer.
     */
    method TextTokenize(ids: seq<int>) returns (r: int, line: Option<string>)
      requires loaded ==> |ids| > 0
      ensures !loaded ==> r == -1 && line == None
      ensures loaded ==> r == |ids| && line == Some(TokenIdsText(ids))
    {
      if !loaded {
        return -1, None;
      }
      var s := FormatTokenIds(ids);
      return |ids|, Some(s);
    }
  }
}
