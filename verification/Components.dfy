/** `extract_components` of `feed.rs`: cutting BEGIN/END blocks out of logical lines. */
module Components {
  import opened Seqs
  import opened Text
  import opened Lines

  type Block = seq<string>

  /** What the flat scan still finds in the lines ahead; `cur` is the block
      being collected. A second begin marker starts the block anew. */
  function Blocks(ls: seq<string>, begin: string, end: string, cur: Option<Block>): seq<Block> {
    if ls == [] then []
    else if ls[0] == begin then Blocks(ls[1..], begin, end, Some([ls[0]]))
    else if ls[0] == end then
      match cur
      case Some(block) => [block + [ls[0]]] + Blocks(ls[1..], begin, end, None)
      case None => Blocks(ls[1..], begin, end, None)
    else
      match cur
      case Some(block) => Blocks(ls[1..], begin, end, Some(block + [ls[0]]))
      case None => Blocks(ls[1..], begin, end, None)
  }

  /** The blocks named `name` of a text, as logical lines. */
  function Extract(text: string, name: string): seq<Block> {
    Blocks(LogicalLines(text), "BEGIN:" + name, "END:" + name, None)
  }

  /** `extract_components` */
  method ExtractComponents(text: string, name: string) returns (out: seq<string>)
    ensures out == Map(Extract(text, name), Unlines)
  {
    var begin := "BEGIN:" + name;
    var end := "END:" + name;
    ghost var found: seq<Block> := [];
    out := [];
    var cur: Option<Block> := None;
    var unfolded := UnfoldLoop(text);
    var rest := TrimAll(SplitLines(unfolded));
    while rest != []
      invariant found + Blocks(rest, begin, end, cur) == Extract(text, name)
      invariant out == Map(found, Unlines)
    {
      var line := rest[0];
      rest := rest[1..];
      if line == begin {
        cur := Some([line]);
      } else if line == end {
        if cur.Some? {
          var block := cur.value + [line];
          Snoc(found, block, Blocks(rest, begin, end, None));
          MapSnoc(found, block, Unlines);
          out := out + [Unlines(block)];
          found := found + [block];
        }
        cur := None;
      } else if cur.Some? {
        cur := Some(cur.value + [line]);
      }
    }
  }

  // ── what blocks look like ──────────────────────────────────────────────

  /** Opened by the begin marker, closed by the end marker, neither inside. */
  predicate WellBlock(block: Block, begin: string, end: string) {
    |block| >= 2 && Opened(block[..|block| - 1], begin, end) && block[|block| - 1] == end
  }

  predicate Opened(block: Block, begin: string, end: string) {
    block != [] && block[0] == begin && begin !in block[1..] && end !in block[1..]
  }

  predicate AllWell(blocks: seq<Block>, begin: string, end: string) {
    forall b <- blocks :: WellBlock(b, begin, end)
  }

  lemma Open(begin: string, end: string)
    ensures Opened([begin], begin, end)
  {}

  lemma Longer(block: Block, l: string, begin: string, end: string)
    requires Opened(block, begin, end) && l != begin && l != end
    ensures Opened(block + [l], begin, end)
  {
    assert (block + [l])[1..] == block[1..] + [l];
  }

  lemma Close(block: Block, begin: string, end: string)
    requires Opened(block, begin, end)
    ensures WellBlock(block + [end], begin, end)
  {
    assert (block + [end])[..|block|] == block;
  }

  lemma {:induction false} BlocksWell(ls: seq<string>, begin: string, end: string, cur: Option<Block>)
    requires begin != end && (cur.Some? ==> Opened(cur.value, begin, end))
    ensures AllWell(Blocks(ls, begin, end, cur), begin, end)
  {
    hide Opened, WellBlock;
    if ls == [] { return; }
    if ls[0] == begin {
      Open(begin, end);
      BlocksWell(ls[1..], begin, end, Some([ls[0]]));
    } else if ls[0] == end {
      BlocksWell(ls[1..], begin, end, None);
      if cur.Some? { Close(cur.value, begin, end); }
    } else if cur.Some? {
      Longer(cur.value, ls[0], begin, end);
      BlocksWell(ls[1..], begin, end, Some(cur.value + [ls[0]]));
    } else {
      BlocksWell(ls[1..], begin, end, None);
    }
  }

  /** Every line of a block is a line of the text. */
  predicate Within(blocks: seq<Block>, p: string -> bool) {
    forall b <- blocks :: forall l <- b :: p(l)
  }

  lemma {:induction false} BlocksWithin(ls: seq<string>, begin: string, end: string, cur: Option<Block>,
                                        p: string -> bool)
    requires forall l <- ls :: p(l)
    requires cur.Some? ==> forall l <- cur.value :: p(l)
    ensures Within(Blocks(ls, begin, end, cur), p)
  {
    if ls == [] { return; }
    assert ls[0] in ls;
    if ls[0] == begin {
      BlocksWithin(ls[1..], begin, end, Some([ls[0]]), p);
    } else if ls[0] != end && cur.Some? {
      BlocksWithin(ls[1..], begin, end, Some(cur.value + [ls[0]]), p);
    } else {
      BlocksWithin(ls[1..], begin, end, None, p);
    }
  }

  /** Blocks of a text without hidden folds consist of lines that print and read back. */
  lemma ExtractGood(text: string, name: string)
    requires NoHiddenFolds(text)
    ensures Within(Extract(text, name), IsGood())
    ensures AllWell(Extract(text, name), "BEGIN:" + name, "END:" + name)
  {
    LogicalLinesGood(text);
    BlocksWithin(LogicalLines(text), "BEGIN:" + name, "END:" + name, None, IsGood());
    assert ("BEGIN:" + name)[0] != ("END:" + name)[0];
    BlocksWell(LogicalLines(text), "BEGIN:" + name, "END:" + name, None);
  }

  // ── cutting printed blocks out again ───────────────────────────────────

  /** Lines that hold no begin marker are passed over. */
  lemma {:induction false} BlocksSkip(ls: seq<string>, rest: seq<string>, begin: string, end: string)
    requires begin !in ls
    ensures Blocks(ls + rest, begin, end, None) == Blocks(rest, begin, end, None)
  {
    if ls == [] {
      assert ls + rest == rest;
    } else {
      Uncons(ls, rest);
      assert ls[0] in ls;
      BlocksSkip(ls[1..], rest, begin, end);
    }
  }

  lemma {:induction false} BlocksCollect(ls: seq<string>, rest: seq<string>, begin: string, end: string, cur: Block)
    requires begin !in ls && end !in ls
    ensures Blocks(ls + rest, begin, end, Some(cur)) == Blocks(rest, begin, end, Some(cur + ls))
  {
    if ls == [] {
      assert ls + rest == rest && cur + ls == cur;
    } else {
      Uncons(ls, rest);
      assert ls[0] in ls;
      BlocksCollect(ls[1..], rest, begin, end, cur + [ls[0]]);
      Snoc(cur, ls[0], ls[1..]);
    }
  }

  lemma BlocksOfBlock(block: Block, rest: seq<string>, begin: string, end: string)
    requires begin != end && WellBlock(block, begin, end)
    ensures Blocks(block + rest, begin, end, None) == [block] + Blocks(rest, begin, end, None)
  {
    var open := block[..|block| - 1];
    var tail := [end] + rest;
    assert block + rest == [begin] + (open[1..] + tail);
    Uncons([begin], open[1..] + tail);
    BlocksCollect(open[1..], tail, begin, end, [begin]);
    assert [begin] + open[1..] == open && open + [end] == block;
    Uncons([end], rest);
  }

  function Concat(blocks: seq<Block>): seq<string> {
    if blocks == [] then [] else blocks[0] + Concat(blocks[1..])
  }

  /** Blocks written one after another are found again, in order. */
  lemma {:induction false} BlocksFound(blocks: seq<Block>, rest: seq<string>, begin: string, end: string)
    requires begin != end && AllWell(blocks, begin, end)
    ensures Blocks(Concat(blocks) + rest, begin, end, None) == blocks + Blocks(rest, begin, end, None)
  {
    if blocks == [] {
      assert Concat(blocks) + rest == rest;
    } else {
      assert blocks[0] in blocks;
      Assoc(blocks[0], Concat(blocks[1..]), rest);
      BlocksOfBlock(blocks[0], Concat(blocks[1..]) + rest, begin, end);
      BlocksFound(blocks[1..], rest, begin, end);
      Assoc([blocks[0]], blocks[1..], Blocks(rest, begin, end, None));
    }
  }

  lemma {:induction false} ConcatWithin(blocks: seq<Block>, p: string -> bool)
    requires Within(blocks, p)
    ensures forall l <- Concat(blocks) :: p(l)
  {
    if blocks != [] {
      assert blocks[0] in blocks;
      forall b | b in blocks[1..] ensures forall l <- b :: p(l) { assert b in blocks; }
      ConcatWithin(blocks[1..], p);
    }
  }

  lemma {:induction false} ConcatConcat(a: seq<Block>, b: seq<Block>)
    ensures Concat(a + b) == Concat(a) + Concat(b)
  {
    if a == [] {
      assert a + b == b;
    } else {
      Uncons(a, b);
      ConcatConcat(a[1..], b);
      Assoc(a[0], Concat(a[1..]), Concat(b));
    }
  }

  function LineMapper(f: string -> string): Block -> Block { b => Map(b, f) }

  /** A line-by-line rewrite that neither makes nor breaks markers carries
      over to the blocks. */
  lemma {:induction false} BlocksRewritten(ls: seq<string>, begin: string, end: string, cur: Option<Block>,
                                           f: string -> string)
    requires forall l :: f(l) == begin <==> l == begin
    requires forall l :: f(l) == end <==> l == end
    ensures Blocks(Map(ls, f), begin, end, match cur case Some(b) => Some(Map(b, f)) case None => None)
            == Map(Blocks(ls, begin, end, cur), LineMapper(f))
  {
    var g := LineMapper(f);
    if ls == [] { return; }
    assert f(begin) == begin && f(end) == end;
    assert Map(ls, f)[1..] == Map(ls[1..], f);
    if ls[0] == begin {
      BlocksRewritten(ls[1..], begin, end, Some([ls[0]]), f);
      assert Map([ls[0]], f) == [begin];
    } else if ls[0] == end {
      BlocksRewritten(ls[1..], begin, end, None, f);
      if cur.Some? {
        MapSnoc(cur.value, ls[0], f);
        MapCons(cur.value + [ls[0]], Blocks(ls[1..], begin, end, None), g);
      }
    } else if cur.Some? {
      MapSnoc(cur.value, ls[0], f);
      BlocksRewritten(ls[1..], begin, end, Some(cur.value + [ls[0]]), f);
    } else {
      BlocksRewritten(ls[1..], begin, end, None, f);
    }
  }
}
