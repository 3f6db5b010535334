// BlueLM: its chat template and the per-layer RoPE settings its model
// constructor writes. The byte-pair encoder and the vocabulary are outside
// the model: `encode` maps a text to ids and `pieceToId` a piece to its id.
module BlueLM {
  import opened Framing

  datatype Tokenizer = Tokenizer(
    padTokenId: int,
    bosTokenId: int,
    seaTokenId: int,
    sehTokenId: int,
    aiTokenId: int,
    humanTokenId: int,
    encode: string -> seq<int>)

  /** After the vocabulary is read, the four chat pieces are looked up by name. */
  function Load(tok: Tokenizer, pieceToId: string -> int): (t: Tokenizer)
    ensures t.seaTokenId == pieceToId("[SEA]") && t.sehTokenId == pieceToId("[SEH]")
    ensures t.aiTokenId == pieceToId("[|AI|]:") && t.humanTokenId == pieceToId("[|Human|]:")
    ensures t.padTokenId == tok.padTokenId && t.bosTokenId == tok.bosTokenId && t.encode == tok.encode
  {
    tok.(seaTokenId := pieceToId("[SEA]"), sehTokenId := pieceToId("[SEH]"),
         aiTokenId := pieceToId("[|AI|]:"), humanTokenId := pieceToId("[|Human|]:"))
  }

  predicate IsSpecialId(tok: Tokenizer, id: int)
  {
    id == tok.padTokenId || id == tok.humanTokenId || id == tok.aiTokenId
  }

  function AiOpeningIds(tok: Tokenizer): seq<int>
  {
    [tok.aiTokenId]
  }

  function AiIds(tok: Tokenizer, ai: string): seq<int>
  {
    AiOpeningIds(tok) + tok.encode(ai)
  }

  function UserIds(tok: Tokenizer, user: string): seq<int>
  {
    [tok.bosTokenId, tok.humanTokenId] + tok.encode(user)
  }

  method AppendAiOpening(tok: Tokenizer, ids0: seq<int>) returns (ids: seq<int>)
    ensures ids == ids0 + AiOpeningIds(tok)
  {
    ids := ids0 + [tok.aiTokenId];
  }

  method AppendAi(tok: Tokenizer, ai: string, ids0: seq<int>) returns (ids: seq<int>)
    ensures ids == ids0 + AiIds(tok, ai)
  {
    ids := AppendAiOpening(tok, ids0);
    ids := ids + tok.encode(ai);
  }

  method AppendUser(tok: Tokenizer, user: string, ids0: seq<int>) returns (ids: seq<int>)
    ensures ids == ids0 + UserIds(tok, user)
  {
    ids := ids0 + [tok.bosTokenId];
    ids := ids + [tok.humanTokenId];
    ids := ids + tok.encode(user);
  }

  /** A user turn opens with the begin-of-sentence id, a reply with the AI id. */
  function Markers(tok: Tokenizer): set<int>
  {
    {tok.bosTokenId, tok.aiTokenId}
  }

  datatype Turn = UserSays(text: string) | AiSays(text: string)

  function TurnIds(tok: Tokenizer, t: Turn): seq<int>
  {
    match t
    case UserSays(u) => UserIds(tok, u)
    case AiSays(a) => AiIds(tok, a)
  }

  function TurnsIds(tok: Tokenizer, turns: seq<Turn>): (segs: seq<seq<int>>)
    ensures |segs| == |turns|
    ensures forall k :: 0 <= k < |turns| ==> segs[k] == TurnIds(tok, turns[k])
  {
    if turns == [] then [] else TurnsIds(tok, turns[..|turns| - 1]) + [TurnIds(tok, turns[|turns| - 1])]
  }

  /** The human id is no marker and the ids the tokenizer gives each turn's text include none. */
  predicate Distinct(tok: Tokenizer, turns: seq<Turn>)
  {
    && tok.humanTokenId !in Markers(tok)
    && forall k :: 0 <= k < |turns| ==> MarkFree(tok.encode(turns[k].text), Markers(tok))
  }

  /** Each turn reads back: its opening ids, then the encoded text. */
  lemma TurnContents(tok: Tokenizer, t: Turn)
    ensures t.UserSays? ==> (TurnIds(tok, t)[..2] == [tok.bosTokenId, tok.humanTokenId]
      && TurnIds(tok, t)[2..] == tok.encode(t.text))
    ensures t.AiSays? ==> TurnIds(tok, t)[0] == tok.aiTokenId && TurnIds(tok, t)[1..] == tok.encode(t.text)
  {
    var s := TurnIds(tok, t);
    if t.UserSays? {
      assert s[2..] == tok.encode(t.text);
    } else {
      assert s[1..] == tok.encode(t.text);
    }
  }

  lemma TurnIsSegment(tok: Tokenizer, t: Turn)
    requires tok.humanTokenId !in Markers(tok)
    requires MarkFree(tok.encode(t.text), Markers(tok))
    ensures IsSegment(TurnIds(tok, t), Markers(tok))
  {
    var s := TurnIds(tok, t);
    if t.UserSays? {
      assert s[1..] == [tok.humanTokenId] + tok.encode(t.text);
    } else {
      assert s[1..] == tok.encode(t.text);
    }
  }

  /**
   * A conversation cuts back, at the begin-of-sentence and AI ids, into one
   * piece per turn, each piece exactly what that turn appended.
   */
  lemma ConversationSplitsIntoTurns(tok: Tokenizer, turns: seq<Turn>)
    requires Distinct(tok, turns)
    ensures Segments(Concat(TurnsIds(tok, turns)), Markers(tok)) == TurnsIds(tok, turns)
  {
    var segs := TurnsIds(tok, turns);
    forall k | 0 <= k < |segs|
      ensures IsSegment(segs[k], Markers(tok))
    {
      TurnIsSegment(tok, turns[k]);
    }
    SegmentsOfConcat([], segs, Markers(tok));
    assert [] + Concat(segs) == Concat(segs);
  }

  /** The ids of a whole conversation, turn after turn. */
  function Conversation(tok: Tokenizer, turns: seq<Turn>): seq<int>
  {
    Concat(TurnsIds(tok, turns))
  }

  /** Where each turn's ids begin in the conversation. */
  function TurnStarts(tok: Tokenizer, turns: seq<Turn>): seq<int>
  {
    Offsets(0, TurnsIds(tok, turns))
  }

  /** Text whose encoding holds neither a special id nor the begin-of-sentence id. */
  predicate Plain(tok: Tokenizer, text: string)
  {
    forall i :: 0 <= i < |tok.encode(text)| ==>
      !IsSpecialId(tok, tok.encode(text)[i]) && tok.encode(text)[i] != tok.bosTokenId
  }

  /** A turn never ends on the begin-of-sentence id. */
  lemma TurnEndsOffBos(tok: Tokenizer, t: Turn)
    requires !IsSpecialId(tok, tok.bosTokenId) && Plain(tok, t.text)
    ensures var ids := TurnIds(tok, t); ids[|ids| - 1] != tok.bosTokenId
  {
    var ids, text := TurnIds(tok, t), tok.encode(t.text);
    if text != [] {
      assert ids[|ids| - 1] == text[|text| - 1];
    }
  }

  /** Where the special ids of `ids` stand, given the turn starts `s`. */
  predicate SpecialAt(tok: Tokenizer, ids: seq<int>, s: seq<int>, i: int)
    requires 0 <= i < |ids|
  {
    IsSpecialId(tok, ids[i]) <==>
      (i in s && ids[i] == tok.aiTokenId) || (i > 0 && i - 1 in s && ids[i - 1] == tok.bosTokenId)
  }

  /**
   * With the begin-of-sentence id not special and plain texts, the special
   * ids of a conversation are the AI ids that open replies and the human ids
   * right after the begin-of-sentence id that opens a user turn; the
   * begin-of-sentence id itself, a marker, is never special.
   */
  lemma {:induction false} SpecialIdsInConversation(tok: Tokenizer, turns: seq<Turn>, i: int)
    requires !IsSpecialId(tok, tok.bosTokenId)
    requires forall k :: 0 <= k < |turns| ==> Plain(tok, turns[k].text)
    requires 0 <= i < |Conversation(tok, turns)|
    ensures var ids, s := Conversation(tok, turns), TurnStarts(tok, turns);
      IsSpecialId(tok, ids[i]) <==>
        (i in s && ids[i] == tok.aiTokenId) || (i > 0 && i - 1 in s && ids[i - 1] == tok.bosTokenId)
    decreases |turns|
  {
    var segs := TurnsIds(tok, turns);
    var init, t := turns[..|turns| - 1], turns[|turns| - 1];
    var segsI := TurnsIds(tok, init);
    assert segs[..|segs| - 1] == segsI;
    var before, last := Conversation(tok, init), TurnIds(tok, t);
    assert Conversation(tok, turns) == before + last;
    var si := TurnStarts(tok, init);
    assert TurnStarts(tok, turns) == si + [|before|];
    assert forall k :: 0 <= k < |init| ==> init[k] == turns[k];
    if i < |before| {
      SpecialIdsInConversation(tok, init, i);
      SpecialAtExtends(tok, before, last, si, i);
    } else {
      assert forall k :: 0 <= k < |init| ==> |segsI[k]| > 0;
      if before != [] {
        TurnEndsOffBos(tok, init[|init| - 1]);
        assert before[|before| - 1] == segsI[|segsI| - 1][|segsI[|segsI| - 1]| - 1];
      }
      SpecialInLastTurn(tok, before, si, t, i - |before|);
    }
  }

  /** Appending a turn leaves the earlier positions as they were. */
  lemma SpecialAtExtends(tok: Tokenizer, before: seq<int>, last: seq<int>, si: seq<int>, i: int)
    requires 0 <= i < |before| && SpecialAt(tok, before, si, i)
    ensures SpecialAt(tok, before + last, si + [|before|], i)
  {
    assert (before + last)[i] == before[i];
    if i > 0 {
      assert (before + last)[i - 1] == before[i - 1];
    }
  }

  /** The positions of the last turn, after earlier ids that do not end on the begin-of-sentence id. */
  lemma SpecialInLastTurn(tok: Tokenizer, before: seq<int>, si: seq<int>, t: Turn, j: int)
    requires !IsSpecialId(tok, tok.bosTokenId) && Plain(tok, t.text)
    requires forall x :: x in si ==> x < |before|
    requires before != [] ==> before[|before| - 1] != tok.bosTokenId
    requires 0 <= j < |TurnIds(tok, t)|
    ensures SpecialAt(tok, before + TurnIds(tok, t), si + [|before|], |before| + j)
  {
    var last, text := TurnIds(tok, t), tok.encode(t.text);
    var ids, i := before + last, |before| + j;
    assert ids[i] == last[j];
    if j == 0 {
      if i > 0 {
        assert ids[i - 1] == before[|before| - 1];
      }
    } else if j == 1 {
      assert ids[i - 1] == last[0];
      if t.AiSays? {
        assert last[1] == text[0];
      }
    } else if t.UserSays? {
      assert last[j] == text[j - 2];
      assert ids[i - 1] == last[j - 1];
    } else {
      assert last[j] == text[j - 1];
      assert ids[i - 1] == last[j - 1];
    }
  }

  // ---- the model ----

  datatype Config = Config(
    numHiddenLayers: int,
    ropeTheta: real,
    ropeScalingFactor: real,
    ropeScalingPower: real)

  /** The RoPE settings of one attention layer. */
  datatype Rope = Rope(freqBase: real, scalingFactor: real, scalingPower: real)

  /** A layer after the constructor: the configured base; the scaling only when its power is positive. */
  function LayerRope(before: Rope, cfg: Config): (r: Rope)
    ensures r.freqBase == cfg.ropeTheta
    ensures cfg.ropeScalingPower > 0.0 ==> r.scalingFactor == cfg.ropeScalingFactor && r.scalingPower == cfg.ropeScalingPower
    ensures cfg.ropeScalingPower <= 0.0 ==> r.scalingFactor == before.scalingFactor && r.scalingPower == before.scalingPower
  {
    if cfg.ropeScalingPower > 0.0 then
      Rope(cfg.ropeTheta, cfg.ropeScalingFactor, cfg.ropeScalingPower)
    else
      before.(freqBase := cfg.ropeTheta)
  }

  /** Setting a layer twice changes nothing more. */
  lemma LayerRopeIdempotent(before: Rope, cfg: Config)
    ensures LayerRope(LayerRope(before, cfg), cfg) == LayerRope(before, cfg)
  {
  }

  /** The constructor's pass over the layers. */
  method SetLayerRope(layers: array<Rope>, cfg: Config)
    requires layers.Length == if cfg.numHiddenLayers > 0 then cfg.numHiddenLayers else 0
    modifies layers
    ensures forall k :: 0 <= k < layers.Length ==> layers[k] == LayerRope(old(layers[k]), cfg)
  {
    var i := 0;
    while i < cfg.numHiddenLayers
      invariant 0 <= i <= layers.Length
      invariant forall k :: 0 <= k < i ==> layers[k] == LayerRope(old(layers[k]), cfg)
      invariant forall k :: i <= k < layers.Length ==> layers[k] == old(layers[k])
    {
      layers[i] := layers[i].(freqBase := cfg.ropeTheta);
      if cfg.ropeScalingPower > 0.0 {
        layers[i] := layers[i].(scalingFactor := cfg.ropeScalingFactor, scalingPower := cfg.ropeScalingPower);
      }
      i := i + 1;
    }
  }
}
