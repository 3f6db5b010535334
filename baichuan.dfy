// Baichuan chat templates and the Baichuan-M1 model set-up. The encoders
// append special token ids around the tokenizer's encoding of each text; the
// byte-pair encoder itself is outside the model, a function `encode` from
// text to ids.

/** Baichuan (7B): a user-token before each user turn, an assistant-token before each reply. */
module Baichuan7b {
  import opened Framing

  datatype Tokenizer = Tokenizer(
    padTokenId: int,
    userTokenId: int,
    assistantTokenId: int,
    sysPrompt: string,
    encode: string -> seq<int>)

  /** The tokenizer as constructed from its config: the system prompt starts out empty. */
  function NewTokenizer(padTokenId: int, userTokenId: int, assistantTokenId: int,
                        encode: string -> seq<int>): (tok: Tokenizer)
    ensures tok.sysPrompt == [] && SysPromptIds(tok) == []
    ensures tok.userTokenId == userTokenId && tok.assistantTokenId == assistantTokenId
    ensures tok.padTokenId == padTokenId && tok.encode == encode
  {
    Tokenizer(padTokenId, userTokenId, assistantTokenId, "", encode)
  }

  predicate IsSpecialId(tok: Tokenizer, id: int)
  {
    id == tok.padTokenId || id == tok.userTokenId || id == tok.assistantTokenId
  }

  /** The ids that open a turn. */
  function Markers(tok: Tokenizer): set<int>
  {
    {tok.userTokenId, tok.assistantTokenId}
  }

  /** Text whose encoding holds no special id. */
  predicate Plain(tok: Tokenizer, text: string)
  {
    forall i :: 0 <= i < |tok.encode(text)| ==> !IsSpecialId(tok, tok.encode(text)[i])
  }

  function SysPromptIds(tok: Tokenizer): seq<int>
  {
    if |tok.sysPrompt| > 0 then tok.encode(tok.sysPrompt) else []
  }

  function AiOpeningIds(tok: Tokenizer): seq<int>
  {
    [tok.assistantTokenId]
  }

  function UserIds(tok: Tokenizer, user: string): seq<int>
  {
    [tok.userTokenId] + tok.encode(user)
  }

  function AiIds(tok: Tokenizer, ai: string): seq<int>
  {
    AiOpeningIds(tok) + tok.encode(ai)
  }

  method AppendSysPrompt(tok: Tokenizer, ids0: seq<int>) returns (ids: seq<int>)
    ensures ids == ids0 + SysPromptIds(tok)
  {
    ids := ids0;
    if |tok.sysPrompt| > 0 {
      ids := ids + tok.encode(tok.sysPrompt);
    }
  }

  method AppendAiOpening(tok: Tokenizer, ids0: seq<int>) returns (ids: seq<int>)
    ensures ids == ids0 + AiOpeningIds(tok)
  {
    ids := ids0 + [tok.assistantTokenId];
  }

  method AppendAi(tok: Tokenizer, ai: string, ids0: seq<int>) returns (ids: seq<int>)
    ensures ids == ids0 + AiIds(tok, ai)
  {
    ids := AppendAiOpening(tok, ids0);
    ids := ids + tok.encode(ai);
  }

  method AppendUser(tok: Tokenizer, user: string, ids0: seq<int>) returns (ids: seq<int>)
    ensures ids == ids0 + UserIds(tok, user)
  {
    ids := ids0 + [tok.userTokenId];
    ids := ids + tok.encode(user);
  }

  datatype Turn = UserSays(text: string) | AiSays(text: string)

  function TurnIds(tok: Tokenizer, t: Turn): seq<int>
  {
    match t
    case UserSays(u) => UserIds(tok, u)
    case AiSays(a) => AiIds(tok, a)
  }

  function TurnsIds(tok: Tokenizer, turns: seq<Turn>): (segs: seq<seq<int>>)
    ensures |segs| == |turns|
    ensures forall k :: 0 <= k < |turns| ==> segs[k] == TurnIds(tok, turns[k])
  {
    if turns == [] then [] else TurnsIds(tok, turns[..|turns| - 1]) + [TurnIds(tok, turns[|turns| - 1])]
  }

  lemma TurnIsSegment(tok: Tokenizer, t: Turn)
    requires Plain(tok, t.text)
    ensures IsSegment(TurnIds(tok, t), Markers(tok))
    ensures TurnIds(tok, t)[0] == tok.userTokenId <==> t.UserSays? || tok.userTokenId == tok.assistantTokenId
    ensures TurnIds(tok, t)[1..] == tok.encode(t.text)
  {
    var s := TurnIds(tok, t);
    assert s[1..] == tok.encode(t.text);
  }

  /**
   * A prompt made of the system prompt and a run of turns cuts back, at the
   * turn markers, into the system prompt and one piece per turn, each its
   * marker followed by the encoded text.
   */
  lemma PromptSplitsIntoTurns(tok: Tokenizer, turns: seq<Turn>)
    requires Plain(tok, tok.sysPrompt)
    requires forall k :: 0 <= k < |turns| ==> Plain(tok, turns[k].text)
    ensures var sys := SysPromptIds(tok);
      Segments(sys + Concat(TurnsIds(tok, turns)), Markers(tok))
        == (if sys == [] then [] else [sys]) + TurnsIds(tok, turns)
  {
    var segs := TurnsIds(tok, turns);
    forall k | 0 <= k < |segs|
      ensures IsSegment(segs[k], Markers(tok))
    {
      TurnIsSegment(tok, turns[k]);
    }
    SegmentsOfConcat(SysPromptIds(tok), segs, Markers(tok));
  }

  /** The ids of a whole prompt: the system prompt, then each turn. */
  function Prompt(tok: Tokenizer, turns: seq<Turn>): seq<int>
  {
    SysPromptIds(tok) + Concat(TurnsIds(tok, turns))
  }

  /** Where each turn's ids begin in the prompt. */
  function TurnStarts(tok: Tokenizer, turns: seq<Turn>): seq<int>
  {
    Offsets(|SysPromptIds(tok)|, TurnsIds(tok, turns))
  }

  /**
   * Under the hypotheses of PromptSplitsIntoTurns, the special ids of a
   * prompt stand exactly where a turn begins: each turn's user or assistant
   * id is special, and nothing the tokenizer made of the texts is.
   */
  lemma SpecialIdsAtTurnStarts(tok: Tokenizer, turns: seq<Turn>, i: int)
    requires Plain(tok, tok.sysPrompt)
    requires forall k :: 0 <= k < |turns| ==> Plain(tok, turns[k].text)
    requires 0 <= i < |Prompt(tok, turns)|
    ensures IsSpecialId(tok, Prompt(tok, turns)[i]) <==> i in TurnStarts(tok, turns)
  {
    var special := {tok.padTokenId, tok.userTokenId, tok.assistantTokenId};
    var segs := TurnsIds(tok, turns);
    forall k | 0 <= k < |segs|
      ensures IsSegment(segs[k], special)
    {
      TurnIsSegment(tok, turns[k]);
    }
    SpecialAtOffsets(SysPromptIds(tok), segs, special, i);
  }
}

/** Baichuan-M1: prefixed encodings, the "im" template, sliding-window layers and the weight count. */
module BaichuanM1 {
  import opened Wrappers
  import opened CInt
  import opened Framing

  /** The added special tokens, as the tokenizer config names them. */
  datatype SpecialIds = SpecialIds(
    bSys: int, bUsys: int, cQ: int, cA: int, bFunc: int, bCode: int, imStart: int, imEnd: int)

  /** Which history encoder the tokenizer uses. */
  datatype Template = DefaultTemplate | ImTemplate

  const DEFAULT_SYS_PROMPT: string := "You are a helpful assistant."

  class Tokenizer {
    var special: SpecialIds
    var terminateIds: set<int>
    var sysPrompt: string
    var template: Template
    /** The byte-pair encoding of a text. */
    const encode: string -> seq<int>

    /** im_end starts at -1; the other ids hold whatever they were given. */
    constructor(encode: string -> seq<int>, initial: SpecialIds, terminateIds: set<int>)
      ensures this.encode == encode && this.terminateIds == terminateIds
      ensures special == initial.(imEnd := -1)
      ensures sysPrompt == DEFAULT_SYS_PROMPT && template == DefaultTemplate
    {
      this.encode := encode;
      special := initial.(imEnd := -1);
      this.terminateIds := terminateIds;
      sysPrompt := DEFAULT_SYS_PROMPT;
      template := DefaultTemplate;
    }

    /** Loading the vocabulary fixes the six chat markers at 71..76. */
    method Load()
      modifies this`special
      ensures special == old(special).(bSys := 71, bUsys := 72, cQ := 73, cA := 74, bFunc := 75, bCode := 76)
    {
      special := special.(bSys := 71, bUsys := 72, cQ := 73, cA := 74, bFunc := 75, bCode := 76);
    }

    /**
     * Reads the added tokens of the config (`added`: name to id, as the
     * config lists them): each of the eight names present sets its id, the
     * others keep theirs; im_end then becomes a terminating id when it exists.
     */
    method LoadConfig(added: map<string, int>) returns (ok: bool)
      modifies this`special, this`terminateIds
      ensures ok && special == WithAdded(old(special), added)
      ensures special.imEnd >= 0 ==> terminateIds == old(terminateIds) + {special.imEnd}
      ensures special.imEnd < 0 ==> terminateIds == old(terminateIds)
    {
      special := WithAdded(special, added);
      if special.imEnd >= 0 {
        terminateIds := terminateIds + {special.imEnd};
      }
      return true;
    }

    /** Encodes `text` after the prefix id, which is written only when non-negative. */
    method Encode(text: string, ids0: seq<int>, prefixTokenId: int) returns (ids: seq<int>)
      ensures ids == ids0 + Prefixed(encode, text, prefixTokenId)
    {
      ids := ids0;
      if prefixTokenId >= 0 {
        ids := ids + [prefixTokenId];
      }
      ids := ids + encode(text);
    }
  }

  /** The id the config gives `name`, or `current` when it lists no such token. */
  function AddedId(added: map<string, int>, name: string, current: int): (id: int)
    ensures name in added ==> id == added[name]
    ensures name !in added ==> id == current
  {
    if name in added then added[name] else current
  }

  /** Each of the eight ids takes the config's id for its name when the config lists it. */
  function WithAdded(ids: SpecialIds, added: map<string, int>): (r: SpecialIds)
    ensures r.bSys == AddedId(added, "<B_SYS>", ids.bSys)
    ensures r.bUsys == AddedId(added, "<B_USYS>", ids.bUsys)
    ensures r.cQ == AddedId(added, "<C_Q>", ids.cQ)
    ensures r.cA == AddedId(added, "<C_A>", ids.cA)
    ensures r.bFunc == AddedId(added, "<B_FUNC>", ids.bFunc)
    ensures r.bCode == AddedId(added, "<B_CODE>", ids.bCode)
    ensures r.imStart == AddedId(added, "<|im_start|>", ids.imStart)
    ensures r.imEnd == AddedId(added, "<|im_end|>", ids.imEnd)
  {
    SpecialIds(
      AddedId(added, "<B_SYS>", ids.bSys),
      AddedId(added, "<B_USYS>", ids.bUsys),
      AddedId(added, "<C_Q>", ids.cQ),
      AddedId(added, "<C_A>", ids.cA),
      AddedId(added, "<B_FUNC>", ids.bFunc),
      AddedId(added, "<B_CODE>", ids.bCode),
      AddedId(added, "<|im_start|>", ids.imStart),
      AddedId(added, "<|im_end|>", ids.imEnd))
  }

  /**
   * A config without "<|im_end|>" leaves im_end at the constructor's -1, so
   * nothing new terminates generation.
   */
  lemma NoImEndNoTerminator(ids: SpecialIds, added: map<string, int>)
    requires ids.imEnd == -1 && "<|im_end|>" !in added
    ensures WithAdded(ids, added).imEnd < 0
  {
  }

  /** An encoding with an optional prefix id. */
  function Prefixed(encode: string -> seq<int>, text: string, prefixTokenId: int): (ids: seq<int>)
    ensures prefixTokenId >= 0 ==> |ids| > 0 && ids[0] == prefixTokenId && ids[1..] == encode(text)
    ensures prefixTokenId < 0 ==> ids == encode(text)
  {
    if prefixTokenId >= 0 then [prefixTokenId] + encode(text) else encode(text)
  }

  // ---- the default template ----

  function SysPromptIds(tok: Tokenizer): seq<int>
    reads tok
  {
    if |tok.sysPrompt| > 0 then Prefixed(tok.encode, tok.sysPrompt, tok.special.bSys) else []
  }

  function UserIds(tok: Tokenizer, user: string): seq<int>
    reads tok
  {
    Prefixed(tok.encode, user, tok.special.cQ)
  }

  function AiOpeningIds(tok: Tokenizer): seq<int>
    reads tok
  {
    [tok.special.cA]
  }

  function AiIds(tok: Tokenizer, ai: string): seq<int>
    reads tok
  {
    AiOpeningIds(tok) + tok.encode(ai)
  }

  method AppendSysPrompt(tok: Tokenizer, ids0: seq<int>) returns (ids: seq<int>)
    ensures ids == ids0 + SysPromptIds(tok)
  {
    ids := ids0;
    if |tok.sysPrompt| > 0 {
      ids := tok.Encode(tok.sysPrompt, ids, tok.special.bSys);
    }
  }

  method AppendAiOpening(tok: Tokenizer, ids0: seq<int>) returns (ids: seq<int>)
    ensures ids == ids0 + AiOpeningIds(tok)
  {
    ids := ids0 + [tok.special.cA];
  }

  method AppendAi(tok: Tokenizer, ai: string, ids0: seq<int>) returns (ids: seq<int>)
    ensures ids == ids0 + AiIds(tok, ai)
  {
    ids := AppendAiOpening(tok, ids0);
    ids := tok.Encode(ai, ids, -1);
  }

  method AppendUser(tok: Tokenizer, user: string, ids0: seq<int>) returns (ids: seq<int>)
    ensures ids == ids0 + UserIds(tok, user)
  {
    ids := tok.Encode(user, ids0, tok.special.cQ);
  }

  function DefaultMarkers(tok: Tokenizer): set<int>
    reads tok
  {
    {tok.special.bSys, tok.special.cQ, tok.special.cA}
  }

  /** With a non-negative b_sys and a marker-free encoding, the system prompt opens with b_sys. */
  lemma DefaultSysIsSegment(tok: Tokenizer)
    requires tok.special.bSys >= 0
    requires MarkFree(tok.encode(tok.sysPrompt), DefaultMarkers(tok))
    ensures |tok.sysPrompt| > 0 ==>
      (IsSegment(SysPromptIds(tok), DefaultMarkers(tok)) && SysPromptIds(tok)[0] == tok.special.bSys)
    ensures |tok.sysPrompt| == 0 ==> SysPromptIds(tok) == []
  {
  }

  datatype Turn = UserSays(text: string) | AiSays(text: string)

  function TurnIds(tok: Tokenizer, t: Turn): seq<int>
    reads tok
  {
    match t
    case UserSays(u) => UserIds(tok, u)
    case AiSays(a) => AiIds(tok, a)
  }

  function TurnsIds(tok: Tokenizer, turns: seq<Turn>): (segs: seq<seq<int>>)
    reads tok
    ensures |segs| == |turns|
    ensures forall k :: 0 <= k < |turns| ==> segs[k] == TurnIds(tok, turns[k])
  {
    if turns == [] then [] else TurnsIds(tok, turns[..|turns| - 1]) + [TurnIds(tok, turns[|turns| - 1])]
  }

  /** With a non-negative c_q and marker-free text, a user turn opens with c_q and a reply with c_a. */
  lemma DefaultTurnIsSegment(tok: Tokenizer, t: Turn)
    requires tok.special.cQ >= 0
    requires MarkFree(tok.encode(t.text), DefaultMarkers(tok))
    ensures IsSegment(TurnIds(tok, t), DefaultMarkers(tok))
    ensures TurnIds(tok, t)[1..] == tok.encode(t.text)
    ensures t.UserSays? ==> TurnIds(tok, t)[0] == tok.special.cQ
    ensures t.AiSays? ==> TurnIds(tok, t)[0] == tok.special.cA
  {
    assert AiIds(tok, t.text)[1..] == tok.encode(t.text);
  }

  /**
   * A default-template prompt, system prompt and turns, cuts back at the
   * markers into the system piece and one piece per turn.
   */
  lemma DefaultPromptSplitsIntoTurns(tok: Tokenizer, turns: seq<Turn>)
    requires tok.special.bSys >= 0 && tok.special.cQ >= 0
    requires MarkFree(tok.encode(tok.sysPrompt), DefaultMarkers(tok))
    requires forall k :: 0 <= k < |turns| ==> MarkFree(tok.encode(turns[k].text), DefaultMarkers(tok))
    ensures var sys := SysPromptIds(tok);
      Segments(Concat([sys] + TurnsIds(tok, turns)), DefaultMarkers(tok))
        == (if sys == [] then [] else [sys]) + TurnsIds(tok, turns)
  {
    var sys := SysPromptIds(tok);
    var segs := TurnsIds(tok, turns);
    forall k | 0 <= k < |segs|
      ensures IsSegment(segs[k], DefaultMarkers(tok))
    {
      DefaultTurnIsSegment(tok, turns[k]);
    }
    ConcatCons(sys, segs);
    if sys == [] {
      SegmentsOfConcat([], segs, DefaultMarkers(tok));
      assert [] + Concat(segs) == Concat(segs);
    } else {
      DefaultSysIsSegment(tok);
      assert forall k :: 0 <= k < |[sys] + segs| ==> IsSegment(([sys] + segs)[k], DefaultMarkers(tok));
      SegmentsOfConcat([], [sys] + segs, DefaultMarkers(tok));
      assert [] + Concat([sys] + segs) == Concat([sys] + segs);
    }
  }

  // ---- the "im" template ----

  /** `<|im_start|>role\n` */
  function ImOpeningIds(tok: Tokenizer, role: string): seq<int>
    reads tok
  {
    [tok.special.imStart] + tok.encode(role)
  }

  /** `<|im_end|>\n` */
  function ImClosingIds(tok: Tokenizer): seq<int>
    reads tok
  {
    [tok.special.imEnd] + tok.encode("\n")
  }

  /** A whole turn: opening, content, closing. */
  function ImTurnIds(tok: Tokenizer, role: string, content: string): seq<int>
    reads tok
  {
    ImOpeningIds(tok, role) + tok.encode(content) + ImClosingIds(tok)
  }

  function ImSysPromptIds(tok: Tokenizer): seq<int>
    reads tok
  {
    if |tok.sysPrompt| > 0 then ImTurnIds(tok, "system\n", tok.sysPrompt) else []
  }

  method ImAppendSysPrompt(tok: Tokenizer, ids0: seq<int>) returns (ids: seq<int>)
    ensures ids == ids0 + ImSysPromptIds(tok)
  {
    ids := ids0;
    if |tok.sysPrompt| > 0 {
      ids := ids + [tok.special.imStart];
      ids := tok.Encode("system\n", ids, -1);
      ids := tok.Encode(tok.sysPrompt, ids, -1);
      ids := ids + [tok.special.imEnd];
      ids := tok.Encode("\n", ids, -1);
    }
  }

  method ImAppendAiOpening(tok: Tokenizer, ids0: seq<int>) returns (ids: seq<int>)
    ensures ids == ids0 + ImOpeningIds(tok, "assistant\n")
  {
    ids := ids0 + [tok.special.imStart];
    ids := tok.Encode("assistant\n", ids, -1);
  }

  method ImAppendUserOpening(tok: Tokenizer, ids0: seq<int>) returns (ids: seq<int>)
    ensures ids == ids0 + ImOpeningIds(tok, "user\n")
  {
    ids := ids0 + [tok.special.imStart];
    ids := tok.Encode("user\n", ids, -1);
  }

  method ImAppendAi(tok: Tokenizer, ai: string, ids0: seq<int>) returns (ids: seq<int>)
    ensures ids == ids0 + ImTurnIds(tok, "assistant\n", ai)
  {
    ids := ImAppendAiOpening(tok, ids0);
    ids := tok.Encode(ai, ids, -1);
    ids := ids + [tok.special.imEnd];
    ids := tok.Encode("\n", ids, -1);
  }

  method ImAppendUser(tok: Tokenizer, user: string, ids0: seq<int>) returns (ids: seq<int>)
    ensures ids == ids0 + ImTurnIds(tok, "user\n", user)
  {
    ids := ImAppendUserOpening(tok, ids0);
    ids := tok.Encode(user, ids, -1);
    ids := ids + [tok.special.imEnd];
    ids := tok.Encode("\n", ids, -1);
  }

  function ImMarkers(tok: Tokenizer): set<int>
    reads tok
  {
    {tok.special.imStart, tok.special.imEnd}
  }

  /**
   * An "im" turn is two pieces: im_start with the role and content, then
   * im_end with the line break; so the turn reads back from its markers.
   */
  lemma ImTurnSegments(tok: Tokenizer, role: string, content: string)
    requires tok.special.imStart != tok.special.imEnd
    requires MarkFree(tok.encode(role), ImMarkers(tok))
    requires MarkFree(tok.encode(content), ImMarkers(tok))
    requires MarkFree(tok.encode("\n"), ImMarkers(tok))
    ensures var opening := ImOpeningIds(tok, role) + tok.encode(content);
      && ImTurnIds(tok, role, content) == Concat([opening, ImClosingIds(tok)])
      && IsSegment(opening, ImMarkers(tok)) && opening[0] == tok.special.imStart
      && IsSegment(ImClosingIds(tok), ImMarkers(tok)) && ImClosingIds(tok)[0] == tok.special.imEnd
  {
    var opening := ImOpeningIds(tok, role) + tok.encode(content);
    assert opening[1..] == tok.encode(role) + tok.encode(content);
    assert ImClosingIds(tok)[1..] == tok.encode("\n");
    assert Concat([opening, ImClosingIds(tok)]) == Concat([opening]) + ImClosingIds(tok);
    assert Concat([opening]) == Concat([]) + opening;
  }

  /** The role line the "im" template writes for a turn. */
  function ImRole(t: Turn): string
  {
    if t.UserSays? then "user\n" else "assistant\n"
  }

  function ImTurnsIds(tok: Tokenizer, turns: seq<Turn>): (segs: seq<seq<int>>)
    reads tok
    ensures |segs| == |turns|
    ensures forall k :: 0 <= k < |turns| ==> segs[k] == ImTurnIds(tok, ImRole(turns[k]), turns[k].text)
  {
    if turns == [] then []
    else ImTurnsIds(tok, turns[..|turns| - 1]) + [ImTurnIds(tok, ImRole(turns[|turns| - 1]), turns[|turns| - 1].text)]
  }

  /** The two pieces of an "im" turn: im_start with role and content, then im_end with the line break. */
  function ImPieces(tok: Tokenizer, role: string, content: string): seq<seq<int>>
    reads tok
  {
    [ImOpeningIds(tok, role) + tok.encode(content), ImClosingIds(tok)]
  }

  function ImSysPieces(tok: Tokenizer): seq<seq<int>>
    reads tok
  {
    if |tok.sysPrompt| > 0 then ImPieces(tok, "system\n", tok.sysPrompt) else []
  }

  /** Two pieces per turn, in order. */
  function ImTurnsPieces(tok: Tokenizer, turns: seq<Turn>): (p: seq<seq<int>>)
    reads tok
    ensures |p| == 2 * |turns|
    ensures forall k :: 0 <= k < |turns| ==>
      p[2 * k] == ImOpeningIds(tok, ImRole(turns[k])) + tok.encode(turns[k].text) && p[2 * k + 1] == ImClosingIds(tok)
  {
    if turns == [] then []
    else
      var init, last := turns[..|turns| - 1], turns[|turns| - 1];
      var p := ImTurnsPieces(tok, init) + ImPieces(tok, ImRole(last), last.text);
      assert forall k :: 0 <= k < |init| ==> turns[k] == init[k];
      p
  }

  /** The pieces of the turns put back together are the ids the turns appended. */
  lemma {:induction false} ImTurnsPiecesConcat(tok: Tokenizer, turns: seq<Turn>)
    ensures Concat(ImTurnsPieces(tok, turns)) == Concat(ImTurnsIds(tok, turns))
    decreases |turns|
  {
    if turns != [] {
      var init, last := turns[..|turns| - 1], turns[|turns| - 1];
      var segs := ImTurnsIds(tok, turns);
      assert segs[..|segs| - 1] == ImTurnsIds(tok, init);
      ImTurnsPiecesConcat(tok, init);
      ImPiecesConcat(tok, ImRole(last), last.text);
      ConcatAppend(ImTurnsPieces(tok, init), ImPieces(tok, ImRole(last), last.text));
    }
  }

  lemma ImPiecesConcat(tok: Tokenizer, role: string, content: string)
    ensures Concat(ImPieces(tok, role, content)) == ImTurnIds(tok, role, content)
  {
    var p := ImPieces(tok, role, content);
    assert p[..1] == [p[0]];
    assert Concat(p[..1]) == Concat([]) + p[0];
  }

  /** Under the hypotheses of ImTurnSegments, every piece of the turns is a segment. */
  lemma ImTurnsPiecesAreSegments(tok: Tokenizer, turns: seq<Turn>)
    requires tok.special.imStart != tok.special.imEnd
    requires MarkFree(tok.encode("\n"), ImMarkers(tok))
    requires MarkFree(tok.encode("user\n"), ImMarkers(tok)) && MarkFree(tok.encode("assistant\n"), ImMarkers(tok))
    requires forall k :: 0 <= k < |turns| ==> MarkFree(tok.encode(turns[k].text), ImMarkers(tok))
    ensures forall k :: 0 <= k < |ImTurnsPieces(tok, turns)| ==> IsSegment(ImTurnsPieces(tok, turns)[k], ImMarkers(tok))
  {
    var p := ImTurnsPieces(tok, turns);
    forall k | 0 <= k < |p|
      ensures IsSegment(p[k], ImMarkers(tok))
    {
      var n := k / 2;
      ImTurnSegments(tok, ImRole(turns[n]), turns[n].text);
      assert k == 2 * n || k == 2 * n + 1;
    }
  }

  /**
   * An "im" prompt, the system turn and the conversation, cuts back at
   * im_start and im_end into two pieces per turn: the opening with the
   * content, then the closing.
   */
  lemma ImPromptSplitsIntoTurns(tok: Tokenizer, turns: seq<Turn>)
    requires tok.special.imStart != tok.special.imEnd
    requires MarkFree(tok.encode("\n"), ImMarkers(tok))
    requires MarkFree(tok.encode("system\n"), ImMarkers(tok)) && MarkFree(tok.encode(tok.sysPrompt), ImMarkers(tok))
    requires MarkFree(tok.encode("user\n"), ImMarkers(tok)) && MarkFree(tok.encode("assistant\n"), ImMarkers(tok))
    requires forall k :: 0 <= k < |turns| ==> MarkFree(tok.encode(turns[k].text), ImMarkers(tok))
    ensures Segments(ImSysPromptIds(tok) + Concat(ImTurnsIds(tok, turns)), ImMarkers(tok))
      == ImSysPieces(tok) + ImTurnsPieces(tok, turns)
  {
    var sys, rest := ImSysPieces(tok), ImTurnsPieces(tok, turns);
    var pieces := sys + rest;
    ImTurnsPiecesAreSegments(tok, turns);
    if |tok.sysPrompt| > 0 {
      ImTurnSegments(tok, "system\n", tok.sysPrompt);
      ImPiecesConcat(tok, "system\n", tok.sysPrompt);
    }
    assert forall k :: 0 <= k < |pieces| ==> IsSegment(pieces[k], ImMarkers(tok)) by {
      forall k | 0 <= k < |pieces|
        ensures IsSegment(pieces[k], ImMarkers(tok))
      {
        if k >= |sys| {
          assert pieces[k] == rest[k - |sys|];
        }
      }
    }
    SegmentsOfConcat([], pieces, ImMarkers(tok));
    ConcatAppend(sys, rest);
    ImTurnsPiecesConcat(tok, turns);
    assert [] + Concat(pieces) == Concat(pieces);
  }

  /** The "im" system turn is left out entirely when the system prompt is empty. */
  lemma ImEmptySysPrompt(tok: Tokenizer)
    ensures ImSysPromptIds(tok) == [] <==> |tok.sysPrompt| == 0
  {
  }

  // ---- the encoder the tokenizer is set to ----

  /** The system prompt, by the encoder `tok.template` selects. */
  method ChatAppendSysPrompt(tok: Tokenizer, ids0: seq<int>) returns (ids: seq<int>)
    ensures tok.template == DefaultTemplate ==> ids == ids0 + SysPromptIds(tok)
    ensures tok.template == ImTemplate ==> ids == ids0 + ImSysPromptIds(tok)
  {
    if tok.template == ImTemplate {
      ids := ImAppendSysPrompt(tok, ids0);
    } else {
      ids := AppendSysPrompt(tok, ids0);
    }
  }

  /** A user turn, by the encoder `tok.template` selects. */
  method ChatAppendUser(tok: Tokenizer, user: string, ids0: seq<int>) returns (ids: seq<int>)
    ensures tok.template == DefaultTemplate ==> ids == ids0 + UserIds(tok, user)
    ensures tok.template == ImTemplate ==> ids == ids0 + ImTurnIds(tok, "user\n", user)
  {
    if tok.template == ImTemplate {
      ids := ImAppendUser(tok, user, ids0);
    } else {
      ids := AppendUser(tok, user, ids0);
    }
  }

  /** A reply, by the encoder `tok.template` selects. */
  method ChatAppendAi(tok: Tokenizer, ai: string, ids0: seq<int>) returns (ids: seq<int>)
    ensures tok.template == DefaultTemplate ==> ids == ids0 + AiIds(tok, ai)
    ensures tok.template == ImTemplate ==> ids == ids0 + ImTurnIds(tok, "assistant\n", ai)
  {
    if tok.template == ImTemplate {
      ids := ImAppendAi(tok, ai, ids0);
    } else {
      ids := AppendAi(tok, ai, ids0);
    }
  }

  /** The opening of the reply to generate, by the encoder `tok.template` selects. */
  method ChatAppendAiOpening(tok: Tokenizer, ids0: seq<int>) returns (ids: seq<int>)
    ensures tok.template == DefaultTemplate ==> ids == ids0 + AiOpeningIds(tok)
    ensures tok.template == ImTemplate ==> ids == ids0 + ImOpeningIds(tok, "assistant\n")
  {
    if tok.template == ImTemplate {
      ids := ImAppendAiOpening(tok, ids0);
    } else {
      ids := AppendAiOpening(tok, ids0);
    }
  }

  /** `utils::get_opt`: the value under `key`, or the default. */
  function GetOpt(args: map<string, string>, key: string, default: string): string
  {
    if key in args then args[key] else default
  }

  /** Only `chat_template=im` switches to the "im" encoder; anything else keeps the current one. */
  method SetAdditionalArgs(tok: Tokenizer, args: map<string, string>)
    modifies tok`template
    ensures GetOpt(args, "chat_template", "") == "im" ==> tok.template == ImTemplate
    ensures GetOpt(args, "chat_template", "") != "im" ==> tok.template == old(tok.template)
  {
    if GetOpt(args, "chat_template", "") == "im" {
      tok.template := ImTemplate;
    }
  }

  // ---- the model ----

  const SLIDING_WINDOW_LEN: int := 8192

  datatype Config = Config(
    numHiddenLayers: int,
    slidingWindow: int,
    slidingWindowPattern: int,
    convWindow: int,
    ropeTheta: real)

  /** Layer `i` uses sliding-window attention when `i % pattern == 1` (C remainder). */
  predicate IsSwaLayer(layerIndex: int, pattern: int)
    requires pattern != 0
  {
    CRem(layerIndex, pattern) == 1
  }

  /** Three global tensors, then 17 per sliding-window layer and 16 per full layer. */
  function NumTensors(numLayers: nat, pattern: int): (n: nat)
    requires pattern != 0
    ensures 3 + 16 * numLayers <= n <= 3 + 17 * numLayers
  {
    if numLayers == 0 then 3
    else NumTensors(numLayers - 1, pattern) + (if IsSwaLayer(numLayers - 1, pattern) then 17 else 16)
  }

  /** With every other layer sliding-window, the count is 3 + 16n + n/2. */
  lemma {:induction false} NumTensorsPattern2(n: nat)
    ensures NumTensors(n, 2) == 3 + 16 * n + n / 2
  {
    if n > 0 {
      NumTensorsPattern2(n - 1);
      assert IsSwaLayer(n - 1, 2) <==> (n - 1) % 2 == 1;
    }
  }

  /** What the constructor ends in. */
  datatype Construction =
    | Built(numTensors: nat, freqBase: seq<real>)
    | Rejected(message: string)
    | DivisionByZero

  predicate Supported(cfg: Config)
  {
    cfg.slidingWindow == SLIDING_WINDOW_LEN && cfg.slidingWindowPattern == 2 && cfg.convWindow == 2
  }

  function Layers(cfg: Config): nat
  {
    if cfg.numHiddenLayers > 0 then cfg.numHiddenLayers else 0
  }

  /**
   * The constructor as written: it counts the weight tensors, dividing by the
   * sliding-window pattern, before it checks the configuration; then every
   * layer gets the RoPE base `rope_theta`.
   */
  function ConstructOutcome(cfg: Config): Construction
  {
    if Layers(cfg) > 0 && cfg.slidingWindowPattern == 0 then DivisionByZero
    else if !(cfg.slidingWindow == SLIDING_WINDOW_LEN && cfg.slidingWindowPattern == 2) then
      Rejected("unsupported SWA param")
    else if cfg.convWindow != 2 then Rejected("unsupported conv_window param")
    else Built(NumTensors(Layers(cfg), 2), seq(Layers(cfg), _ => cfg.ropeTheta))
  }

  method Construct(cfg: Config, defaultFreqBase: real) returns (r: Construction)
    ensures r == ConstructOutcome(cfg)
  {
    var numTensors := 3;
    var i := 0;
    while i < cfg.numHiddenLayers
      invariant 0 <= i <= Layers(cfg)
      invariant i > 0 ==> cfg.slidingWindowPattern != 0
      invariant cfg.slidingWindowPattern != 0 ==> numTensors == NumTensors(i, cfg.slidingWindowPattern)
    {
      if cfg.slidingWindowPattern == 0 {
        return DivisionByZero;
      }
      numTensors := numTensors + (if IsSwaLayer(i, cfg.slidingWindowPattern) then 17 else 16);
      i := i + 1;
    }
    if !(SLIDING_WINDOW_LEN == cfg.slidingWindow && cfg.slidingWindowPattern == 2) {
      return Rejected("unsupported SWA param");
    }
    if cfg.convWindow != 2 {
      return Rejected("unsupported conv_window param");
    }
    var freqBase := new real[Layers(cfg)](_ => defaultFreqBase);
    i := 0;
    while i < cfg.numHiddenLayers
      invariant 0 <= i <= Layers(cfg)
      invariant forall k :: 0 <= k < i ==> freqBase[k] == cfg.ropeTheta
    {
      // Sliding-window and full layers both take the same base.
      freqBase[i] := cfg.ropeTheta;
      i := i + 1;
    }
    return Built(numTensors, freqBase[..]);
  }

  /** A configuration with pattern 0 reaches `i % 0` before the check that would reject it. */
  lemma ConstructDividesByZero()
    ensures ConstructOutcome(Config(1, SLIDING_WINDOW_LEN, 0, 2, 1.0)) == DivisionByZero
    ensures !Supported(Config(1, SLIDING_WINDOW_LEN, 0, 2, 1.0))
  {
  }

  /** The constructor with its checks before the tensor count. */
  function ConstructChecked(cfg: Config): (r: Construction)
    ensures r != DivisionByZero
    ensures r.Built? <==> Supported(cfg)
    ensures cfg.slidingWindowPattern != 0 ==> r == ConstructOutcome(cfg)
  {
    if !(cfg.slidingWindow == SLIDING_WINDOW_LEN && cfg.slidingWindowPattern == 2) then
      Rejected("unsupported SWA param")
    else if cfg.convWindow != 2 then Rejected("unsupported conv_window param")
    else Built(NumTensors(Layers(cfg), 2), seq(Layers(cfg), _ => cfg.ropeTheta))
  }

  /** A built model has 3 + 16n + n/2 weight tensors and the configured base on every layer. */
  lemma ConstructCheckedBuilt(cfg: Config)
    requires Supported(cfg)
    ensures var r := ConstructChecked(cfg);
      && r.Built?
      && r.numTensors == 3 + 16 * Layers(cfg) + Layers(cfg) / 2
      && |r.freqBase| == Layers(cfg)
      && forall k :: 0 <= k < |r.freqBase| ==> r.freqBase[k] == cfg.ropeTheta
  {
    NumTensorsPattern2(Layers(cfg));
  }
}
