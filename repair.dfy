/**
 * `_drop_syntactic_errors`: one pass over the token list with a stack of the opening tags
 * still waiting for their end, turning the tag tokens that do not fit the tag tree into DATA
 * tokens with the same text. Nothing is inserted, removed or reordered.
 */
module Repair {
  import opened Wrappers
  import opened Lexer
  import opened TagOptions

  /** The options of the registered tags, by name (`self.bbcodes[name]._options`). */
  type Registry = map<string, BBCodeTagOptions>

  predicate IsTag(t: Token) { t.kind == StartTag || t.kind == EndTag }

  /** Every tag token names a registered tag, as `get_tokens` guarantees. */
  predicate Registered(ts: seq<Token>, reg: Registry)
  {
    forall k :: 0 <= k < |ts| && IsTag(ts[k]) ==> ts[k].tagName.Some? && ts[k].tagName.value in reg
  }

  /**
   * The options of a tag token's tag. Only registered names are looked up once `Registered`
   * holds; the fallback to the defaults stands for the `KeyError` the source would raise.
   */
  function OptionsOf(t: Token, reg: Registry): BBCodeTagOptions
  {
    if t.tagName.Some? && t.tagName.value in reg then reg[t.tagName.value] else Defaults
  }

  /** An entry of `opening_tags`: an opening token and its index in the list. */
  datatype Open = Open(token: Token, index: nat)

  /** The token list being repaired and the stack of open tags. */
  datatype State = State(tokens: seq<Token>, open: seq<Open>)

  function Top(st: seq<Open>): Open
    requires st != []
  {
    st[|st| - 1]
  }

  function Pop(st: seq<Open>): seq<Open>
    requires st != []
  {
    st[..|st| - 1]
  }

  /** `name in [x[0].tag_name for x in opening_tags]`. */
  predicate OpenNamed(st: seq<Open>, name: Option<string>)
  {
    exists k :: 0 <= k < |st| && st[k].token.tagName == name
  }

  /** `tokens[index] = BBCodeToken(TK_DATA, None, None, t.text)`; the index is always in range. */
  function Demote(ts: seq<Token>, index: nat, t: Token): (r: seq<Token>)
    ensures |r| == |ts|
  {
    if index < |ts| then ts[index := DataToken(t.text)] else ts
  }

  /** A START token: closes an open tag of the same name first when `same_tag_closes`, then is pushed unless standalone. */
  function StartStep(s: State, i: nat, t: Token, reg: Registry): State
  {
    var o := OptionsOf(t, reg);
    var st := if o.sameTagCloses && s.open != [] && Top(s.open).token.tagName == t.tagName then Pop(s.open) else s.open;
    State(s.tokens, if !o.standalone then st + [Open(t, i)] else st)
  }

  /**
   * The reversed walk over the stack for an END token whose tag is open deeper down: every
   * entry above the nearest one of that name is demoted and popped, then that one is popped.
   */
  function Unwind(s: State, name: Option<string>): (r: State)
    ensures |r.tokens| == |s.tokens|
    decreases |s.open|
  {
    if s.open == [] then s
    else
      var e := Top(s.open);
      if e.token.tagName == name then State(s.tokens, Pop(s.open))
      else Unwind(State(Demote(s.tokens, e.index, e.token), Pop(s.open)), name)
  }

  /** The stack once an END token has closed the innermost open tag, when its options say `end_tag_closes`. */
  function AfterClose(open: seq<Open>, reg: Registry): seq<Open>
  {
    if open != [] && OptionsOf(Top(open).token, reg).endTagCloses then Pop(open) else open
  }

  /** An END token at index `i`. */
  function EndStep(s: State, i: nat, t: Token, reg: Registry): (r: State)
    ensures |r.tokens| == |s.tokens|
  {
    if s.open == [] then State(Demote(s.tokens, i, t), s.open)
    else
      var st := AfterClose(s.open, reg);
      if st == [] then State(s.tokens, st)
      else if Top(st).token.tagName != t.tagName && OpenNamed(st, t.tagName) && OptionsOf(t, reg).renderEmbedded then
        Unwind(State(s.tokens, st), t.tagName)
      else if Top(st).token.tagName != t.tagName then State(Demote(s.tokens, i, t), st)
      else State(s.tokens, Pop(st))
  }

  /** A NEWLINE token closes the innermost open tag when its options say `newline_closes`. */
  function NewlineStep(s: State, reg: Registry): State
  {
    if s.open != [] && OptionsOf(Top(s.open).token, reg).newlineCloses then State(s.tokens, Pop(s.open)) else s
  }

  /** The body of the `for` loop for the token `t` at index `i`. */
  function Step(s: State, i: nat, t: Token, reg: Registry): (r: State)
    ensures |r.tokens| == |s.tokens|
  {
    match t.kind
    case StartTag => StartStep(s, i, t, reg)
    case EndTag => EndStep(s, i, t, reg)
    case Newline => NewlineStep(s, reg)
    case Data => s
  }

  /** The `for` loop from index `i` on. */
  function Run(s: State, i: nat, reg: Registry): (r: State)
    ensures |r.tokens| == |s.tokens|
    decreases |s.tokens| - i
  {
    if i >= |s.tokens| then s else Run(Step(s, i, s.tokens[i], reg), i + 1, reg)
  }

  /** The final loop: the tags still open, bottom first, become DATA. */
  function DemoteAll(ts: seq<Token>, open: seq<Open>): (r: seq<Token>)
    ensures |r| == |ts|
    decreases |open|
  {
    if open == [] then ts else DemoteAll(Demote(ts, open[0].index, open[0].token), open[1..])
  }

  /** The list `_drop_syntactic_errors` returns. */
  function Repair(ts: seq<Token>, reg: Registry): (r: seq<Token>)
    ensures |r| == |ts|
  {
    var s := Run(State(ts, []), 0, reg);
    DemoteAll(s.tokens, s.open)
  }

  /** Every entry of the stack lies before `i`. */
  predicate Below(open: seq<Open>, i: nat)
  {
    forall k :: 0 <= k < |open| ==> open[k].index < i
  }

  /** `_drop_syntactic_errors(tokens)`, updating the list in place. */
  method DropSyntacticErrors(tokens: array<Token>, reg: Registry)
    requires Registered(tokens[..], reg)
    modifies tokens
    ensures tokens[..] == Repair(old(tokens[..]), reg)
  {
    ghost var final := Run(State(tokens[..], []), 0, reg);
    var openingTags: seq<Open> := [];
    var index := 0;
    while index < tokens.Length
      invariant index <= tokens.Length && Below(openingTags, index)
      invariant Run(State(tokens[..], openingTags), index, reg) == final
      decreases tokens.Length - index
    {
      var token := tokens[index];
      ghost var before := State(tokens[..], openingTags);
      if token.kind == StartTag {
        openingTags := OnStart(openingTags, index, token, reg);
      } else if token.kind == EndTag {
        openingTags := OnEnd(tokens, openingTags, index, token, reg);
      } else if token.kind == Newline {
        if |openingTags| > 0 && OptionsOf(openingTags[|openingTags| - 1].token, reg).newlineCloses {
          openingTags := openingTags[..|openingTags| - 1];
        }
      }
      assert State(tokens[..], openingTags) == Step(before, index, token, reg);
      index := index + 1;
    }
    var k := 0;
    while k < |openingTags|
      invariant k <= |openingTags| && Below(openingTags, tokens.Length)
      invariant DemoteAll(tokens[..], openingTags[k..]) == DemoteAll(final.tokens, final.open)
    {
      var e := openingTags[k];
      tokens[e.index] := DataToken(e.token.text);
      assert openingTags[k..][1..] == openingTags[k + 1..];
      k := k + 1;
    }
  }

  /** The START branch of the loop body. */
  method OnStart(openingTags: seq<Open>, index: nat, token: Token, reg: Registry) returns (st: seq<Open>)
    requires Below(openingTags, index)
    ensures Below(st, index + 1)
    ensures forall ts :: State(ts, st) == StartStep(State(ts, openingTags), index, token, reg)
  {
    var o := OptionsOf(token, reg);
    st := openingTags;
    if o.sameTagCloses && |st| > 0 && st[|st| - 1].token.tagName == token.tagName {
      st := st[..|st| - 1];
    }
    if !o.standalone {
      st := st + [Open(token, index)];
    }
  }

  /** The END branch of the loop body. */
  method OnEnd(tokens: array<Token>, openingTags: seq<Open>, index: nat, token: Token, reg: Registry) returns (st: seq<Open>)
    requires index < tokens.Length && Below(openingTags, index)
    modifies tokens
    ensures Below(st, index + 1)
    ensures State(tokens[..], st) == EndStep(State(old(tokens[..]), openingTags), index, token, reg)
  {
    st := openingTags;
    if |st| > 0 {
      if OptionsOf(st[|st| - 1].token, reg).endTagCloses {
        st := st[..|st| - 1];
      }
      if st == [] {
      } else if st[|st| - 1].token.tagName != token.tagName && OpenNamed(st, token.tagName) && OptionsOf(token, reg).renderEmbedded {
        st := UnwindTo(tokens, st, token.tagName, index);
      } else if st[|st| - 1].token.tagName != token.tagName {
        tokens[index] := DataToken(token.text);
      } else {
        st := st[..|st| - 1];
      }
    } else {
      tokens[index] := DataToken(token.text);
    }
  }

  /** `for tag in reversed(opening_tags)`: each pass meets the current top, since each pass pops it. */
  method UnwindTo(tokens: array<Token>, openingTags: seq<Open>, name: Option<string>, ghost index: nat) returns (st: seq<Open>)
    requires Below(openingTags, index) && index <= tokens.Length
    modifies tokens
    ensures Below(st, index)
    ensures State(tokens[..], st) == Unwind(State(old(tokens[..]), openingTags), name)
  {
    st := openingTags;
    while st != []
      invariant Below(st, index)
      invariant Unwind(State(tokens[..], st), name) == Unwind(State(old(tokens[..]), openingTags), name)
      decreases |st|
    {
      var e := st[|st| - 1];
      if e.token.tagName == name {
        st := st[..|st| - 1];
        return;
      }
      tokens[e.index] := DataToken(e.token.text);
      st := st[..|st| - 1];
    }
  }

  /** The state when the `for` loop reaches index `i`. */
  function Upto(ts: seq<Token>, i: nat, reg: Registry): (r: State)
    requires i <= |ts|
    ensures |r.tokens| == |ts|
  {
    if i == 0 then State(ts, [])
    else
      var s := Upto(ts, i - 1, reg);
      Step(s, i - 1, s.tokens[i - 1], reg)
  }

  /** A token the pass may turn into DATA: an END token, or a START token of a tag that is not standalone. */
  predicate Demotable(t: Token, reg: Registry)
  {
    t.kind == EndTag || (t.kind == StartTag && !OptionsOf(t, reg).standalone)
  }

  /** `cur` is `orig` with some demotable tokens replaced by DATA tokens of the same text. */
  predicate DemotedFrom(orig: seq<Token>, cur: seq<Token>, reg: Registry)
  {
    |cur| == |orig| &&
    forall k :: 0 <= k < |orig| ==> cur[k] == orig[k] || (Demotable(orig[k], reg) && cur[k] == DataToken(orig[k].text))
  }

  /** Every stack entry is the untouched START token, of a tag that is not standalone, at an index before `i`. */
  predicate EntriesOk(orig: seq<Token>, open: seq<Open>, i: nat, reg: Registry)
  {
    forall k :: 0 <= k < |open| ==>
      open[k].index < i && open[k].index < |orig| && open[k].token == orig[open[k].index]
      && open[k].token.kind == StartTag && !OptionsOf(open[k].token, reg).standalone
  }

  /** What holds of the loop's state when it reaches index `i`. */
  predicate Inv(orig: seq<Token>, s: State, i: nat, reg: Registry)
  {
    i <= |orig| && DemotedFrom(orig, s.tokens, reg) && EntriesOk(orig, s.open, i, reg)
    && forall k :: i <= k < |orig| ==> s.tokens[k] == orig[k]
  }

  lemma DemoteOk(orig: seq<Token>, ts: seq<Token>, k: nat, t: Token, reg: Registry)
    requires DemotedFrom(orig, ts, reg) && k < |orig| && t.text == orig[k].text && Demotable(orig[k], reg)
    ensures DemotedFrom(orig, Demote(ts, k, t), reg)
  {
  }

  lemma PopOk(orig: seq<Token>, open: seq<Open>, i: nat, reg: Registry)
    requires EntriesOk(orig, open, i, reg) && open != []
    ensures EntriesOk(orig, Pop(open), i, reg) && Top(open).index < i
  {
    assert Top(open) == open[|open| - 1];
  }

  lemma {:induction false} UnwindInv(orig: seq<Token>, s: State, name: Option<string>, i: nat, reg: Registry)
    requires Inv(orig, s, i, reg)
    ensures Inv(orig, Unwind(s, name), i, reg)
    decreases |s.open|
  {
    if s.open != [] {
      var e := Top(s.open);
      PopOk(orig, s.open, i, reg);
      if e.token.tagName != name {
        DemoteOk(orig, s.tokens, e.index, e.token, reg);
        UnwindInv(orig, State(Demote(s.tokens, e.index, e.token), Pop(s.open)), name, i, reg);
      }
    }
  }

  lemma EndInv(orig: seq<Token>, s: State, i: nat, reg: Registry)
    requires Inv(orig, s, i, reg) && i < |orig| && s.tokens[i].kind == EndTag
    ensures Inv(orig, EndStep(s, i, s.tokens[i], reg), i + 1, reg)
  {
    var t := s.tokens[i];
    if s.open == [] {
      DemoteOk(orig, s.tokens, i, t, reg);
    } else {
      PopOk(orig, s.open, i, reg);
      var st := AfterClose(s.open, reg);
      assert Inv(orig, State(s.tokens, st), i, reg);
      if st != [] {
        PopOk(orig, st, i, reg);
        if Top(st).token.tagName != t.tagName && OpenNamed(st, t.tagName) && OptionsOf(t, reg).renderEmbedded {
          UnwindInv(orig, State(s.tokens, st), t.tagName, i, reg);
        } else if Top(st).token.tagName != t.tagName {
          DemoteOk(orig, s.tokens, i, t, reg);
        }
      }
    }
  }

  lemma StepInv(orig: seq<Token>, s: State, i: nat, reg: Registry)
    requires Inv(orig, s, i, reg) && i < |orig|
    ensures Inv(orig, Step(s, i, s.tokens[i], reg), i + 1, reg)
  {
    var t := s.tokens[i];
    match t.kind
    case StartTag =>
      if s.open != [] { PopOk(orig, s.open, i, reg); }
    case EndTag => EndInv(orig, s, i, reg);
    case Newline =>
      if s.open != [] { PopOk(orig, s.open, i, reg); }
    case Data =>
  }

  lemma {:induction false} RunInv(orig: seq<Token>, s: State, i: nat, reg: Registry)
    requires Inv(orig, s, i, reg)
    ensures Inv(orig, Run(s, i, reg), |orig|, reg)
    decreases |orig| - i
  {
    if i < |s.tokens| {
      StepInv(orig, s, i, reg);
      RunInv(orig, Step(s, i, s.tokens[i], reg), i + 1, reg);
    }
  }

  lemma {:induction false} DemoteAllOk(orig: seq<Token>, ts: seq<Token>, open: seq<Open>, n: nat, reg: Registry)
    requires DemotedFrom(orig, ts, reg) && EntriesOk(orig, open, n, reg)
    ensures DemotedFrom(orig, DemoteAll(ts, open), reg)
    decreases |open|
  {
    if open != [] {
      DemoteOk(orig, ts, open[0].index, open[0].token, reg);
      DemoteAllOk(orig, Demote(ts, open[0].index, open[0].token), open[1..], n, reg);
    }
  }

  /**
   * The pass keeps the length, and each token is either kept or, when it is an END token or
   * the START token of a tag that is not standalone, replaced by a DATA token of the same text.
   */
  lemma RepairDemotes(ts: seq<Token>, reg: Registry)
    ensures DemotedFrom(ts, Repair(ts, reg), reg)
  {
    RunInv(ts, State(ts, []), 0, reg);
    var s := Run(State(ts, []), 0, reg);
    DemoteAllOk(ts, s.tokens, s.open, |ts|, reg);
  }

  lemma {:induction false} TextsPointwise(a: seq<Token>, b: seq<Token>)
    requires |a| == |b| && forall k :: 0 <= k < |a| ==> a[k].text == b[k].text
    ensures Texts(a) == Texts(b)
  {
    if a != [] {
      TextsPointwise(a[1..], b[1..]);
    }
  }

  /** The texts of the tokens, one by one and joined, are those of the input. */
  lemma RepairKeepsTexts(ts: seq<Token>, reg: Registry)
    ensures forall k :: 0 <= k < |ts| ==> Repair(ts, reg)[k].text == ts[k].text
    ensures Texts(Repair(ts, reg)) == Texts(ts)
  {
    RepairDemotes(ts, reg);
    TextsPointwise(Repair(ts, reg), ts);
  }

  /** DATA and NEWLINE tokens and the START tokens of standalone tags come out unchanged. */
  lemma RepairKeeps(ts: seq<Token>, reg: Registry, k: nat)
    requires k < |ts| && !Demotable(ts[k], reg)
    ensures Repair(ts, reg)[k] == ts[k]
  {
    RepairDemotes(ts, reg);
  }

  /** Some entry of the stack is at index `k`. */
  predicate OpenAt(open: seq<Open>, k: nat)
  {
    exists m :: 0 <= m < |open| && open[m].index == k
  }

  /** Unwinding writes only DATA tokens for START tokens of the original list. */
  lemma {:induction false} UnwindAt(orig: seq<Token>, s: State, name: Option<string>, n: nat, reg: Registry, k: nat)
    requires EntriesOk(orig, s.open, n, reg) && |s.tokens| == |orig| && k < |orig|
    ensures Unwind(s, name).tokens[k] == s.tokens[k]
      || (orig[k].kind == StartTag && Unwind(s, name).tokens[k] == DataToken(orig[k].text))
    decreases |s.open|
  {
    if s.open != [] {
      var e := Top(s.open);
      PopOk(orig, s.open, n, reg);
      if e.token.tagName != name {
        UnwindAt(orig, State(Demote(s.tokens, e.index, e.token), Pop(s.open)), name, n, reg, k);
      }
    }
  }

  /** A step at index `j` leaves the tokens before `j` alone, except START tokens it turns into DATA. */
  lemma StepAt(orig: seq<Token>, s: State, j: nat, reg: Registry, k: nat)
    requires Inv(orig, s, j, reg) && j < |orig| && k < j
    ensures var r := Step(s, j, s.tokens[j], reg);
      r.tokens[k] == s.tokens[k] || (orig[k].kind == StartTag && r.tokens[k] == DataToken(orig[k].text))
  {
    var t := s.tokens[j];
    if t.kind == EndTag && s.open != [] {
      var st := AfterClose(s.open, reg);
      PopOk(orig, s.open, j, reg);
      assert EntriesOk(orig, st, j, reg);
      UnwindAt(orig, State(s.tokens, st), t.tagName, j, reg, k);
    }
  }

  lemma {:induction false} RunAt(orig: seq<Token>, s: State, j: nat, reg: Registry, k: nat)
    requires Inv(orig, s, j, reg) && k < j
    ensures Run(s, j, reg).tokens[k] == s.tokens[k]
      || (orig[k].kind == StartTag && Run(s, j, reg).tokens[k] == DataToken(orig[k].text))
    decreases |orig| - j
  {
    if j < |s.tokens| {
      StepAt(orig, s, j, reg, k);
      StepInv(orig, s, j, reg);
      RunAt(orig, Step(s, j, s.tokens[j], reg), j + 1, reg, k);
    }
  }

  lemma {:induction false} DemoteAllAt(orig: seq<Token>, ts: seq<Token>, open: seq<Open>, n: nat, reg: Registry, k: nat)
    requires EntriesOk(orig, open, n, reg) && |ts| == |orig| && k < |orig|
    ensures DemoteAll(ts, open)[k] == ts[k]
      || (orig[k].kind == StartTag && DemoteAll(ts, open)[k] == DataToken(orig[k].text))
    decreases |open|
  {
    if open != [] {
      DemoteAllAt(orig, Demote(ts, open[0].index, open[0].token), open[1..], n, reg, k);
    }
  }

  lemma {:induction false} RunSplit(ts: seq<Token>, i: nat, reg: Registry)
    requires i <= |ts|
    ensures Run(State(ts, []), 0, reg) == Run(Upto(ts, i, reg), i, reg)
  {
    if i > 0 {
      RunSplit(ts, i - 1, reg);
      var s := Upto(ts, i - 1, reg);
      assert Run(s, i - 1, reg) == Run(Step(s, i - 1, s.tokens[i - 1], reg), i, reg);
    }
  }

  lemma InvSame(orig: seq<Token>, a: State, b: State, i: nat, reg: Registry)
    requires Inv(orig, a, i, reg) && a == b
    ensures Inv(orig, b, i, reg)
  {
  }

  lemma {:induction false} UptoInv(ts: seq<Token>, i: nat, reg: Registry)
    requires i <= |ts|
    ensures Inv(ts, Upto(ts, i, reg), i, reg)
  {
    if i > 0 {
      var s := Upto(ts, i - 1, reg);
      UptoInv(ts, i - 1, reg);
      StepInv(ts, s, i - 1, reg);
      InvSame(ts, Step(s, i - 1, s.tokens[i - 1], reg), Upto(ts, i, reg), i, reg);
    }
  }

  /**
   * Once the loop has passed index `k`, the token there is final, except that a START token
   * may still become DATA (when its tag is unwound or still open at the end).
   */
  lemma Settled(ts: seq<Token>, reg: Registry, i: nat, k: nat)
    requires k < i <= |ts|
    ensures Repair(ts, reg)[k] == Upto(ts, i, reg).tokens[k]
      || (ts[k].kind == StartTag && Repair(ts, reg)[k] == DataToken(ts[k].text))
  {
    var s := Upto(ts, i, reg);
    RunSplit(ts, i, reg);
    UptoInv(ts, i, reg);
    RunAt(ts, s, i, reg, k);
    RunInv(ts, s, i, reg);
    var f := Run(s, i, reg);
    DemoteAllAt(ts, f.tokens, f.open, |ts|, reg, k);
  }

  /** The loop has not touched the token at index `i` when it reaches it. */
  lemma UptoAt(ts: seq<Token>, reg: Registry, i: nat)
    requires i < |ts|
    ensures Upto(ts, i, reg).tokens[i] == ts[i]
  {
    UptoInv(ts, i, reg);
  }

  /** The step at an END token `ts[i]`, from the state the loop reaches there. */
  lemma EndStepAt(ts: seq<Token>, reg: Registry, i: nat)
    requires i < |ts|
    ensures Upto(ts, i + 1, reg) == EndStep(Upto(ts, i, reg), i, ts[i], reg) || ts[i].kind != EndTag
  {
    UptoInv(ts, i, reg);
  }

  /** With no tag open, an END token becomes DATA. */
  lemma EndOnEmptyStack(ts: seq<Token>, reg: Registry, i: nat)
    requires i < |ts| && ts[i].kind == EndTag && Upto(ts, i, reg).open == []
    ensures Repair(ts, reg)[i] == DataToken(ts[i].text)
  {
    EndStepAt(ts, reg, i);
    Settled(ts, reg, i + 1, i);
  }

  lemma {:induction false} NoStartNoOpen(ts: seq<Token>, reg: Registry, i: nat)
    requires i <= |ts| && forall k :: 0 <= k < i ==> ts[k].kind != StartTag
    ensures Upto(ts, i, reg).open == []
  {
    if i > 0 {
      NoStartNoOpen(ts, reg, i - 1);
      UptoInv(ts, i - 1, reg);
    }
  }

  /** An END token with no START token anywhere before it becomes DATA. */
  lemma EndWithoutOpener(ts: seq<Token>, reg: Registry, i: nat)
    requires i < |ts| && ts[i].kind == EndTag && forall k :: 0 <= k < i ==> ts[k].kind != StartTag
    ensures Repair(ts, reg)[i] == DataToken(ts[i].text)
  {
    NoStartNoOpen(ts, reg, i);
    EndOnEmptyStack(ts, reg, i);
  }

  /** When closing the innermost tag (`end_tag_closes`) empties the stack, the END token is kept. */
  lemma EndEmptiedStackKept(ts: seq<Token>, reg: Registry, i: nat)
    requires i < |ts| && ts[i].kind == EndTag
    requires Upto(ts, i, reg).open != [] && AfterClose(Upto(ts, i, reg).open, reg) == []
    ensures Repair(ts, reg)[i] == ts[i]
  {
    var s := Upto(ts, i, reg);
    EndStepAt(ts, reg, i);
    UptoAt(ts, reg, i);
    EndStepEmptied(s, i, ts[i], reg);
    Settled(ts, reg, i + 1, i);
  }

  lemma EndStepEmptied(s: State, i: nat, t: Token, reg: Registry)
    requires s.open != [] && AfterClose(s.open, reg) == []
    ensures EndStep(s, i, t, reg).tokens == s.tokens
  {
  }

  /** An END token matching the innermost tag left open closes it and is kept. */
  lemma EndMatchKept(ts: seq<Token>, reg: Registry, i: nat)
    requires i < |ts| && ts[i].kind == EndTag
    requires var st := AfterClose(Upto(ts, i, reg).open, reg);
      Upto(ts, i, reg).open != [] && st != [] && Top(st).token.tagName == ts[i].tagName
    ensures Repair(ts, reg)[i] == ts[i]
  {
    EndStepAt(ts, reg, i);
    UptoAt(ts, reg, i);
    Settled(ts, reg, i + 1, i);
  }

  /**
   * An END token that matches neither the innermost tag left open nor, with `render_embedded`,
   * a tag deeper down, becomes DATA.
   */
  lemma EndMismatchDemoted(ts: seq<Token>, reg: Registry, i: nat)
    requires i < |ts| && ts[i].kind == EndTag
    requires var st := AfterClose(Upto(ts, i, reg).open, reg);
      Upto(ts, i, reg).open != [] && st != [] && Top(st).token.tagName != ts[i].tagName
      && !(OpenNamed(st, ts[i].tagName) && OptionsOf(ts[i], reg).renderEmbedded)
    ensures Repair(ts, reg)[i] == DataToken(ts[i].text)
  {
    EndStepAt(ts, reg, i);
    UptoAt(ts, reg, i);
    Settled(ts, reg, i + 1, i);
  }

  /** The index in the stack of the nearest (topmost) entry with the given name. */
  function NearestNamed(st: seq<Open>, name: Option<string>): (j: nat)
    requires OpenNamed(st, name)
    ensures j < |st| && st[j].token.tagName == name
    ensures forall m :: j < m < |st| ==> st[m].token.tagName != name
  {
    if Top(st).token.tagName == name then |st| - 1
    else
      assert OpenNamed(Pop(st), name) by {
        var k :| 0 <= k < |st| && st[k].token.tagName == name;
        assert Pop(st)[k] == st[k];
      }
      NearestNamed(Pop(st), name)
  }

  /**
   * Unwinding to a tag open deeper down pops the stack down to below its nearest entry of
   * that name and turns every entry above that one into DATA.
   */
  lemma {:induction false} UnwindDemotes(orig: seq<Token>, s: State, name: Option<string>, n: nat, reg: Registry)
    requires EntriesOk(orig, s.open, n, reg) && |s.tokens| == |orig| && OpenNamed(s.open, name)
    ensures var j := NearestNamed(s.open, name); var r := Unwind(s, name);
      r.open == s.open[..j]
      && forall m :: j < m < |s.open| ==> r.tokens[s.open[m].index] == DataToken(orig[s.open[m].index].text)
    decreases |s.open|
  {
    var e := Top(s.open);
    PopOk(orig, s.open, n, reg);
    if e.token.tagName != name {
      var s' := State(Demote(s.tokens, e.index, e.token), Pop(s.open));
      UnwindDemotes(orig, s', name, n, reg);
      UnwindAt(orig, s', name, n, reg, e.index);
      var j := NearestNamed(s.open, name);
      assert Pop(s.open)[..j] == s.open[..j];
      forall m | j < m < |s.open| - 1
        ensures Unwind(s, name).tokens[s.open[m].index] == DataToken(orig[s.open[m].index].text)
      {
        assert Pop(s.open)[m] == s.open[m];
      }
    }
  }

  /** The condition under which an END token at `i` unwinds the stack. */
  predicate Unwinds(ts: seq<Token>, reg: Registry, i: nat)
    requires i < |ts|
  {
    var st := AfterClose(Upto(ts, i, reg).open, reg);
    ts[i].kind == EndTag && Upto(ts, i, reg).open != [] && st != [] && Top(st).token.tagName != ts[i].tagName
    && OpenNamed(st, ts[i].tagName) && OptionsOf(ts[i], reg).renderEmbedded
  }

  /** The unwinding step itself, on the state the loop reaches at `i`: it turns the `m`-th entry into DATA. */
  lemma UnwindStepAt(ts: seq<Token>, reg: Registry, i: nat, m: nat)
    requires i < |ts| && Unwinds(ts, reg, i)
    requires var st := AfterClose(Upto(ts, i, reg).open, reg); NearestNamed(st, ts[i].tagName) < m < |st|
    ensures var st := AfterClose(Upto(ts, i, reg).open, reg); var r := Upto(ts, i + 1, reg);
      st[m].index < i && r.tokens[st[m].index] == DataToken(ts[st[m].index].text)
  {
    var s := Upto(ts, i, reg);
    var st := AfterClose(s.open, reg);
    EndStepAt(ts, reg, i);
    UptoInv(ts, i, reg);
    PopOk(ts, s.open, i, reg);
    assert EntriesOk(ts, st, i, reg);
    UnwindDemotes(ts, State(s.tokens, st), ts[i].tagName, i, reg);
  }

  /** The unwinding step leaves the END token itself alone. */
  lemma UnwindKeepsEnd(ts: seq<Token>, reg: Registry, i: nat)
    requires i < |ts| && Unwinds(ts, reg, i)
    ensures Upto(ts, i + 1, reg).tokens[i] == ts[i]
  {
    var s := Upto(ts, i, reg);
    var st := AfterClose(s.open, reg);
    EndStepAt(ts, reg, i);
    UptoInv(ts, i, reg);
    PopOk(ts, s.open, i, reg);
    UnwindAt(ts, State(s.tokens, st), ts[i].tagName, i, reg, i);
  }

  /**
   * An END token whose tag is open deeper down, when its own options say `render_embedded`:
   * every tag opened above the nearest one of that name becomes DATA, and the END token is kept.
   */
  lemma EndUnwinds(ts: seq<Token>, reg: Registry, i: nat)
    requires i < |ts| && Unwinds(ts, reg, i)
    ensures var st := AfterClose(Upto(ts, i, reg).open, reg);
      forall m :: NearestNamed(st, ts[i].tagName) < m < |st| ==>
        st[m].index < |ts| && Repair(ts, reg)[st[m].index] == DataToken(ts[st[m].index].text)
    ensures Repair(ts, reg)[i] == ts[i]
  {
    var st := AfterClose(Upto(ts, i, reg).open, reg);
    EndUnwindsKept(ts, reg, i);
    forall m | NearestNamed(st, ts[i].tagName) < m < |st|
      ensures st[m].index < |ts| && Repair(ts, reg)[st[m].index] == DataToken(ts[st[m].index].text)
    {
      EndUnwoundEntry(ts, reg, i, st, m);
    }
  }

  lemma EndUnwindsKept(ts: seq<Token>, reg: Registry, i: nat)
    requires i < |ts| && Unwinds(ts, reg, i)
    ensures Repair(ts, reg)[i] == ts[i]
  {
    UnwindKeepsEnd(ts, reg, i);
    Settled(ts, reg, i + 1, i);
  }

  lemma EndUnwoundEntry(ts: seq<Token>, reg: Registry, i: nat, st: seq<Open>, m: nat)
    requires i < |ts| && Unwinds(ts, reg, i) && st == AfterClose(Upto(ts, i, reg).open, reg)
    requires NearestNamed(st, ts[i].tagName) < m < |st|
    ensures st[m].index < |ts| && Repair(ts, reg)[st[m].index] == DataToken(ts[st[m].index].text)
  {
    UnwindStepAt(ts, reg, i, m);
    Settled(ts, reg, i + 1, st[m].index);
  }

  lemma {:induction false} DemoteAllHits(orig: seq<Token>, ts: seq<Token>, open: seq<Open>, n: nat, reg: Registry, m: nat)
    requires EntriesOk(orig, open, n, reg) && |ts| == |orig| && m < |open|
    ensures DemoteAll(ts, open)[open[m].index] == DataToken(orig[open[m].index].text)
    decreases |open|
  {
    var t1 := Demote(ts, open[0].index, open[0].token);
    assert EntriesOk(orig, open[1..], n, reg);
    if m == 0 {
      DemoteAllAt(orig, t1, open[1..], n, reg, open[0].index);
    } else {
      assert open[1..][m - 1] == open[m];
      DemoteAllHits(orig, t1, open[1..], n, reg, m - 1);
    }
  }

  /** Every tag still open when the loop ends becomes DATA. */
  lemma UnclosedDemoted(ts: seq<Token>, reg: Registry)
    ensures var open := Upto(ts, |ts|, reg).open;
      forall m :: 0 <= m < |open| ==>
        open[m].index < |ts| && Repair(ts, reg)[open[m].index] == DataToken(ts[open[m].index].text)
  {
    var s := Upto(ts, |ts|, reg);
    RunSplit(ts, |ts|, reg);
    UptoInv(ts, |ts|, reg);
    forall m | 0 <= m < |s.open|
      ensures s.open[m].index < |ts| && Repair(ts, reg)[s.open[m].index] == DataToken(ts[s.open[m].index].text)
    {
      DemoteAllHits(ts, s.tokens, s.open, |ts|, reg, m);
    }
  }
}
