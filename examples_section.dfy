/**
 * The "example sentences" section of the feedback: bullet lines are sorted
 * into groups that open with an important expression and carry its original
 * example sentence and its translation; other bullet lines become general
 * items and lines without a bullet are drawn as they are. A translation item
 * is split at its colon into a label and the text handed to speech
 * synthesis, whose language tag is chosen by whether the text holds a CJK
 * ideograph.
 */
module ExampleSection {
  import opened Text
  import opened Bullets
  import Formatting

  datatype ItemKind = Expression | Original | Translation

  /** One bullet line inside a group, with the position of its line. */
  datatype Item = Item(kind: ItemKind, content: string, idx: nat)

  /** What the section draws, in order. */
  datatype Block =
    | Group(items: seq<Item>, groupNum: nat)
    | General(content: string, idx: nat)
    | PlainLine(line: string, idx: nat)

  /** The lines the section looks at: split at line feeds, blank ones dropped. */
  function ExampleLines(text: string): seq<string> {
    Formatting.NonBlank(SplitOnChar(text, '\n'))
  }

  /** `line.trim()` opens with the bullet. */
  predicate IsBulletLine(line: string) {
    Trim(line) != [] && Trim(line)[0] == Bullet
  }

  /**
   * `line.replace(/^[‧]\s*\/, '').trim()`: the bullet is removed only when it
   * is the very first character of the untrimmed line.
   */
  function BulletContent(line: string): string {
    if line != [] && line[0] == Bullet then Trim(line[1..]) else Trim(line)
  }

  /** An important expression: it names one and has `:`, `：` or `→`. */
  predicate IsExpression(content: string) {
    Contains(content, "중요 표현") && (':' in content || '：' in content || '→' in content)
  }

  /** An original example sentence or its translation. */
  predicate IsExampleLine(content: string) {
    Contains(content, "원문 예문") || Contains(content, "예문 번역")
  }

  function ExampleKind(content: string): ItemKind {
    if Contains(content, "원문 예문") then Original else Translation
  }

  /** The text a line is drawn with. */
  function Displayed(line: string): string {
    if IsBulletLine(line) then BulletContent(line) else line
  }

  /** Every line up to `n` with its position and drawn text. */
  function Expected(lines: seq<string>, n: nat): (e: seq<(nat, string)>)
    requires n <= |lines|
    ensures |e| == n
  {
    if n == 0 then [] else Expected(lines, n - 1) + [(n - 1, Displayed(lines[n - 1]))]
  }

  /** The expression lines among the first `n`. */
  function ExpressionCount(lines: seq<string>, n: nat): nat
    requires n <= |lines|
  {
    if n == 0 then 0
    else ExpressionCount(lines, n - 1) + (if IsBulletLine(lines[n - 1]) && IsExpression(BulletContent(lines[n - 1])) then 1 else 0)
  }

  function ItemsFlat(items: seq<Item>): seq<(nat, string)> {
    if items == [] then [] else ItemsFlat(items[..|items| - 1]) + [(items[|items| - 1].idx, items[|items| - 1].content)]
  }

  function BlockFlat(b: Block): seq<(nat, string)> {
    match b
    case Group(items, _) => ItemsFlat(items)
    case General(content, idx) => [(idx, content)]
    case PlainLine(line, idx) => [(idx, line)]
  }

  /** Every drawn line with its position, block after block. */
  function Flatten(blocks: seq<Block>): seq<(nat, string)> {
    if blocks == [] then [] else Flatten(blocks[..|blocks| - 1]) + BlockFlat(blocks[|blocks| - 1])
  }

  /** The groups among the blocks, in order. */
  function GroupsOf(blocks: seq<Block>): (g: seq<Block>)
    ensures forall k :: 0 <= k < |g| ==> g[k].Group?
  {
    if blocks == [] then []
    else GroupsOf(blocks[..|blocks| - 1]) + (if blocks[|blocks| - 1].Group? then [blocks[|blocks| - 1]] else [])
  }

  /** A group opens with its expression and goes on with example sentences only. */
  predicate WellFormedGroup(items: seq<Item>) {
    && items != []
    && items[0].kind == Expression && IsExpression(items[0].content)
    && forall k :: 1 <= k < |items| ==>
         && items[k].kind != Expression
         && IsExampleLine(items[k].content)
         && items[k].kind == ExampleKind(items[k].content)
  }

  /** The dashed separator labelled with the group number is drawn above every group but the first. */
  predicate HasSeparator(g: Block)
    requires g.Group?
  {
    g.groupNum > 1
  }

  /** Groups are numbered 1, 2, ... in the order they are drawn, and each is well formed. */
  predicate NumberedGroups(g: seq<Block>) {
    forall k :: 0 <= k < |g| ==> g[k].Group? && g[k].groupNum == k + 1 && WellFormedGroup(g[k].items)
  }

  /** Stray lines are never mistaken for expressions or example sentences inside a group. */
  predicate StrayBlocksOk(blocks: seq<Block>) {
    forall k :: 0 <= k < |blocks| ==> StrayBlockOk(blocks[k])
  }

  predicate StrayBlockOk(b: Block) {
    (b.General? ==> !IsExpression(b.content)) && (b.PlainLine? ==> !IsBulletLine(b.line))
  }

  /** What holds after the first `idx` lines have been walked. */
  predicate Walked(lines: seq<string>, idx: nat, blocks: seq<Block>, current: seq<Item>, groupCount: nat)
    requires idx <= |lines|
  {
    && groupCount == ExpressionCount(lines, idx)
    && multiset(Flatten(blocks) + ItemsFlat(current)) == multiset(Expected(lines, idx))
    && NumberedGroups(GroupsOf(blocks))
    && (current == [] ==> groupCount == 0 && GroupsOf(blocks) == [])
    && (current != [] ==> groupCount == |GroupsOf(blocks)| + 1 && WellFormedGroup(current))
    && StrayBlocksOk(blocks)
  }

  /**
   * What the walk needs to know of line `j`: whether it has a bullet, the
   * text it is drawn with, and how many expression lines come before it and
   * up to it.
   */
  datatype LineFacts = LineFacts(bullet: bool, shown: string, before: nat, upTo: nat)

  function FactsOf(lines: seq<string>, j: nat): LineFacts
    requires j < |lines|
  {
    LineFacts(IsBulletLine(lines[j]), Displayed(lines[j]), ExpressionCount(lines, j), ExpressionCount(lines, j + 1))
  }

  /** The facts of the first `n` lines, line by line. */
  function FactTable(lines: seq<string>, n: nat): (t: seq<LineFacts>)
    requires n <= |lines|
    ensures |t| == n
  {
    seq(n, j requires 0 <= j < n => FactsOf(lines, j))
  }

  lemma FactAt(lines: seq<string>, n: nat, j: nat)
    requires j < n <= |lines|
    ensures FactTable(lines, n)[j] == FactsOf(lines, j)
  {
  }

  /** An item of group `groupNum`: a bullet line's content, after exactly `groupNum` expression lines. */
  predicate ItemPlaced(facts: seq<LineFacts>, it: Item, groupNum: nat) {
    it.idx < |facts| && facts[it.idx].bullet && facts[it.idx].shown == it.content && facts[it.idx].upTo == groupNum
  }

  predicate ItemsInOrder(items: seq<Item>) {
    forall a, b :: 0 <= a < b < |items| ==> items[a].idx < items[b].idx
  }

  /**
   * Which line a block comes from and why it is drawn there: a group holds,
   * in line order, the lines between its expression and the next one; a
   * general item is a bullet line, and an example sentence only when no
   * expression came before it; a plain line has no bullet.
   */
  predicate BlockPlaced(facts: seq<LineFacts>, b: Block) {
    match b
    case Group(items, n) =>
      n >= 1 && ItemsInOrder(items) && forall i :: 0 <= i < |items| ==> ItemPlaced(facts, items[i], n)
    case General(c, j) =>
      j < |facts| && facts[j].bullet && facts[j].shown == c && (IsExampleLine(c) ==> facts[j].before == 0)
    case PlainLine(l, j) =>
      j < |facts| && !facts[j].bullet && facts[j].shown == l
  }

  predicate Placed(facts: seq<LineFacts>, blocks: seq<Block>) {
    forall k :: 0 <= k < |blocks| ==> BlockPlaced(facts, blocks[k])
  }

  /** The last line a block draws; -1 for a group without items. */
  function End(b: Block): int {
    match b
    case Group(items, _) => if items == [] then -1 else items[|items| - 1].idx
    case General(_, j) => j
    case PlainLine(_, j) => j
  }

  /** Every line of the block comes before line `n` (for a group, given its items are in line order). */
  predicate BlockBefore(b: Block, n: nat) {
    End(b) < n
  }

  /** A general item or plain line is drawn after everything from earlier lines that is drawn before it. */
  predicate StrayInOrder(blocks: seq<Block>) {
    blocks == [] ||
    (&& StrayInOrder(blocks[..|blocks| - 1])
     && var last := blocks[|blocks| - 1];
        !last.Group? ==> forall k :: 0 <= k < |blocks| - 1 ==> BlockBefore(blocks[k], last.idx))
  }

  /** `StrayInOrder` pair by pair: every block before a general item or plain line ends before its line. */
  lemma {:induction false} StrayInOrderPairs(blocks: seq<Block>)
    requires StrayInOrder(blocks)
    ensures forall k, k' :: 0 <= k < k' < |blocks| && !blocks[k'].Group? ==> End(blocks[k]) < blocks[k'].idx
  {
    if blocks != [] {
      var init := blocks[..|blocks| - 1];
      StrayInOrderPairs(init);
      forall k, k' | 0 <= k < k' < |blocks| && !blocks[k'].Group?
        ensures End(blocks[k]) < blocks[k'].idx
      {
        if k' < |blocks| - 1 {
          assert blocks[k] == init[k] && blocks[k'] == init[k'];
        }
      }
    }
  }

  /** Where the walk has put the first `idx` lines. */
  predicate Arranged(facts: seq<LineFacts>, idx: nat, blocks: seq<Block>, current: seq<Item>, groupCount: nat) {
    && Placed(facts, blocks) && StrayInOrder(blocks)
    && (forall k :: 0 <= k < |blocks| ==> BlockBefore(blocks[k], idx))
    && OpenPlaced(facts, idx, current, groupCount)
  }

  /** The open group: items of lines before `idx`, in line order, all belonging to group `groupCount`. */
  predicate OpenPlaced(facts: seq<LineFacts>, idx: nat, current: seq<Item>, groupCount: nat) {
    && ItemsInOrder(current)
    && forall i :: 0 <= i < |current| ==> current[i].idx < idx && ItemPlaced(facts, current[i], groupCount)
  }

  /**
   * `renderExampleSection`: walks the lines once, keeping the group being
   * built in `current`; an expression line closes it and opens the next, an
   * example line joins it (or stands alone when no group is open), any other
   * bullet line is drawn at once as a general item, which therefore comes
   * before the still-open group.
   */
  method RenderExampleSection(text: string) returns (blocks: seq<Block>)
    ensures var lines := ExampleLines(text);
      multiset(Flatten(blocks)) == multiset(Expected(lines, |lines|))
    ensures var lines := ExampleLines(text);
      |GroupsOf(blocks)| == ExpressionCount(lines, |lines|)
    ensures NumberedGroups(GroupsOf(blocks))
    ensures forall k :: 0 <= k < |GroupsOf(blocks)| ==> (HasSeparator(GroupsOf(blocks)[k]) <==> k > 0)
    ensures StrayBlocksOk(blocks)
    ensures Placed(FactTable(ExampleLines(text), |ExampleLines(text)|), blocks) && StrayInOrder(blocks)
    ensures GroupsAmongLines(ExampleLines(text), blocks)
  {
    var lines := ExampleLines(text);
    blocks := [];
    var current: seq<Item> := [];
    var groupCount := 0;
    for idx := 0 to |lines|
      invariant WalkState(blocks, current, groupCount) == Walk(lines, idx)
    {
      var line := lines[idx];
      if IsBulletLine(line) {
        var content := BulletContent(line);
        if IsExpression(content) {
          if current != [] {
            blocks := blocks + [Group(current, groupCount)];
          }
          groupCount := groupCount + 1;
          current := [Item(Expression, content, idx)];
        } else if IsExampleLine(content) && current != [] {
          current := current + [Item(ExampleKind(content), content, idx)];
        } else {
          blocks := blocks + [General(content, idx)];
        }
      } else {
        blocks := blocks + [PlainLine(line, idx)];
      }
    }
    WalkKeeps(lines);
    FinishGroups(lines, blocks, current, groupCount);
    ArrangeFinish(FactTable(lines, |lines|), |lines|, blocks, current, groupCount);
    OrderFinish(lines);
    if current != [] {
      blocks := blocks + [Group(current, groupCount)];
    }
    assert blocks == Closed(Walk(lines, |lines|));
  }

  /** The blocks drawn so far, the group still open and the number of groups opened. */
  datatype WalkState = WalkState(blocks: seq<Block>, current: seq<Item>, groupCount: nat)

  /** What the walk does with line `idx`. */
  function StepLine(st: WalkState, line: string, idx: nat): WalkState {
    if IsBulletLine(line) then
      var content := BulletContent(line);
      if IsExpression(content) then
        var blocks := if st.current != [] then st.blocks + [Group(st.current, st.groupCount)] else st.blocks;
        WalkState(blocks, [Item(Expression, content, idx)], st.groupCount + 1)
      else if IsExampleLine(content) && st.current != [] then
        WalkState(st.blocks, st.current + [Item(ExampleKind(content), content, idx)], st.groupCount)
      else
        WalkState(st.blocks + [General(content, idx)], st.current, st.groupCount)
    else
      WalkState(st.blocks + [PlainLine(line, idx)], st.current, st.groupCount)
  }

  /** The state of the walk after the first `n` lines. */
  function Walk(lines: seq<string>, n: nat): WalkState
    requires n <= |lines|
  {
    if n == 0 then WalkState([], [], 0) else StepLine(Walk(lines, n - 1), lines[n - 1], n - 1)
  }

  /** After the first `n` lines, the walk has drawn each of them once and put each where it belongs. */
  predicate WalkOk(lines: seq<string>, n: nat)
    requires n <= |lines|
  {
    var st := Walk(lines, n);
    && Walked(lines, n, st.blocks, st.current, st.groupCount)
    && Arranged(FactTable(lines, |lines|), n, st.blocks, st.current, st.groupCount)
  }

  /**
   * The walk is right after each line, and so after them all; the fact is
   * written `== true` so that the verifier keeps it whole instead of
   * splitting it into its many parts.
   */
  lemma WalkKeeps(lines: seq<string>)
    ensures WalkOk(lines, |lines|) == true
  {
    var ok := (i: nat) => i <= |lines| && WalkOk(lines, i);
    WalkStart(lines);
    forall i: nat | i < |lines| && WalkOk(lines, i) == true
      ensures WalkOk(lines, i + 1) == true
    {
      WalkStep(lines, i);
    }
    Chain(ok, 0, |lines|);
  }

  /** A fact that holds at `n` and passes from each number to the next holds at every `m` from `n` on. */
  lemma {:induction false} Chain(ok: nat -> bool, n: nat, m: nat)
    requires n <= m && ok(n)
    requires forall i :: n <= i < m && ok(i) ==> ok(i + 1)
    ensures ok(m)
    decreases m - n
  {
    if n < m {
      Chain(ok, n + 1, m);
    }
  }

  lemma WalkStart(lines: seq<string>)
    ensures WalkOk(lines, 0)
  {
    assert Walk(lines, 0) == WalkState([], [], 0);
    assert Flatten([]) + ItemsFlat([]) == [] == Expected(lines, 0);
    assert GroupsOf([]) == [];
    assert Arranged(FactTable(lines, |lines|), 0, [], [], 0);
  }

  lemma WalkStep(lines: seq<string>, idx: nat)
    requires idx < |lines| && WalkOk(lines, idx)
    ensures WalkOk(lines, idx + 1)
  {
    var line := lines[idx];
    if IsBulletLine(line) && IsExpression(BulletContent(line)) {
      WalkExpression(lines, idx);
    } else if IsBulletLine(line) && IsExampleLine(BulletContent(line)) && Walk(lines, idx).current != [] {
      WalkExample(lines, idx);
    } else {
      WalkStray(lines, idx);
    }
  }

  /** An expression line closes the open group and opens its own. */
  lemma WalkExpression(lines: seq<string>, idx: nat)
    requires idx < |lines| && WalkOk(lines, idx)
    requires IsBulletLine(lines[idx]) && IsExpression(BulletContent(lines[idx]))
    ensures WalkOk(lines, idx + 1)
  {
    var st := Walk(lines, idx);
    assert Walk(lines, idx + 1) == StepLine(st, lines[idx], idx);
    var content := BulletContent(lines[idx]);
    StepExpression(lines, idx, st.blocks, st.current, st.groupCount);
    OpenedGroup(lines, FactTable(lines, |lines|), idx);
    ArrangeExpression(FactTable(lines, |lines|), idx, st.blocks, st.current, st.groupCount, [Item(Expression, content, idx)]);
  }

  /** An example sentence with a group open joins that group. */
  lemma WalkExample(lines: seq<string>, idx: nat)
    requires idx < |lines| && WalkOk(lines, idx)
    requires IsBulletLine(lines[idx]) && !IsExpression(BulletContent(lines[idx]))
    requires IsExampleLine(BulletContent(lines[idx])) && Walk(lines, idx).current != []
    ensures WalkOk(lines, idx + 1)
  {
    var st := Walk(lines, idx);
    assert Walk(lines, idx + 1) == StepLine(st, lines[idx], idx);
    StepExample(lines, idx, st.blocks, st.current, st.groupCount);
    ArrangeExample(lines, idx, st.blocks, st.current, st.groupCount);
  }

  /** Any other line is drawn on its own. */
  lemma WalkStray(lines: seq<string>, idx: nat)
    requires idx < |lines| && WalkOk(lines, idx)
    requires !(IsBulletLine(lines[idx]) && IsExpression(BulletContent(lines[idx])))
    requires IsBulletLine(lines[idx]) && IsExampleLine(BulletContent(lines[idx])) ==> Walk(lines, idx).current == []
    ensures WalkOk(lines, idx + 1)
  {
    var st := Walk(lines, idx);
    assert Walk(lines, idx + 1) == StepLine(st, lines[idx], idx);
    var line := lines[idx];
    var b := if IsBulletLine(line) then General(BulletContent(line), idx) else PlainLine(line, idx);
    StepStray(lines, idx, st.blocks, st.current, st.groupCount, b);
    ArrangeStray(lines, idx, st.blocks, st.current, st.groupCount, b);
  }

  lemma BlockBeforeLater(b: Block, n: nat, m: nat)
    requires BlockBefore(b, n) && n <= m
    ensures BlockBefore(b, m)
  {
  }

  /**
   * A placed block pushed after the others keeps them all placed and in
   * order: a general item or plain line pushed is the line `n` every block
   * so far comes before.
   */
  lemma PushKeeps(facts: seq<LineFacts>, n: nat, m: nat, blocks: seq<Block>, b: Block)
    requires Placed(facts, blocks) && StrayInOrder(blocks) && n <= m
    requires forall k :: 0 <= k < |blocks| ==> BlockBefore(blocks[k], n)
    requires BlockPlaced(facts, b) && BlockBefore(b, m)
    requires !b.Group? ==> b.idx == n
    ensures Placed(facts, blocks + [b]) && StrayInOrder(blocks + [b])
    ensures forall k :: 0 <= k < |blocks| + 1 ==> BlockBefore((blocks + [b])[k], m)
  {
    var blocks' := blocks + [b];
    forall k | 0 <= k < |blocks'|
      ensures BlockPlaced(facts, blocks'[k]) && BlockBefore(blocks'[k], m)
    {
      if k < |blocks| {
        assert blocks'[k] == blocks[k];
        BlockBeforeLater(blocks[k], n, m);
      }
    }
    assert blocks'[..|blocks'| - 1] == blocks;
  }

  /** An expression line closes the open group and starts the next one, `next`, holding just itself. */
  lemma ArrangeExpression(facts: seq<LineFacts>, idx: nat, blocks: seq<Block>, open: seq<Item>, count: nat, next: seq<Item>)
    requires Arranged(facts, idx, blocks, open, count) && (open != [] ==> count >= 1)
    requires OpenPlaced(facts, idx + 1, next, count + 1)
    ensures open != [] ==> Arranged(facts, idx + 1, blocks + [Group(open, count)], next, count + 1)
    ensures open == [] ==> Arranged(facts, idx + 1, blocks, next, count + 1)
  {
    if open != [] {
      GroupPlaced(facts, idx, open, count);
      PushKeeps(facts, idx, idx + 1, blocks, Group(open, count));
    } else {
      forall k | 0 <= k < |blocks| {
        BlockBeforeLater(blocks[k], idx, idx + 1);
      }
    }
  }

  /** The group an expression line opens holds just that line, and is numbered one past the groups before it. */
  lemma OpenedGroup(lines: seq<string>, facts: seq<LineFacts>, idx: nat)
    requires facts == FactTable(lines, |lines|)
    requires idx < |lines| && IsBulletLine(lines[idx]) && IsExpression(BulletContent(lines[idx]))
    ensures OpenPlaced(facts, idx + 1, [Item(Expression, BulletContent(lines[idx]), idx)], ExpressionCount(lines, idx) + 1)
  {
    var it := Item(Expression, BulletContent(lines[idx]), idx);
    NewItemPlaced(lines, facts, idx, Expression);
    assert ItemPlaced(facts, it, ExpressionCount(lines, idx) + 1);
    assert [it][0] == it;
  }

  /** The open group, once closed, is a placed block whose lines all come before line `idx`. */
  lemma GroupPlaced(facts: seq<LineFacts>, idx: nat, current: seq<Item>, groupCount: nat)
    requires ItemsInOrder(current) && groupCount >= 1
    requires forall i :: 0 <= i < |current| ==> current[i].idx < idx && ItemPlaced(facts, current[i], groupCount)
    ensures BlockPlaced(facts, Group(current, groupCount)) && BlockBefore(Group(current, groupCount), idx + 1)
  {
  }

  /** The item of line `idx` belongs to the group numbered by the expressions up to and including it. */
  lemma NewItemPlaced(lines: seq<string>, facts: seq<LineFacts>, idx: nat, kind: ItemKind)
    requires facts == FactTable(lines, |lines|)
    requires idx < |lines| && IsBulletLine(lines[idx])
    ensures ItemPlaced(facts, Item(kind, BulletContent(lines[idx]), idx), ExpressionCount(lines, idx)
      + (if IsExpression(BulletContent(lines[idx])) then 1 else 0))
  {
    FactAt(lines, |lines|, idx);
    ExpectedPush(lines, idx);
  }

  /** An example sentence joins the open group after its earlier lines. */
  lemma ArrangeExample(lines: seq<string>, idx: nat, blocks: seq<Block>, current: seq<Item>, groupCount: nat)
    requires idx < |lines| && Arranged(FactTable(lines, |lines|), idx, blocks, current, groupCount)
    requires groupCount == ExpressionCount(lines, idx)
    requires IsBulletLine(lines[idx]) && !IsExpression(BulletContent(lines[idx]))
    ensures var content := BulletContent(lines[idx]);
      Arranged(FactTable(lines, |lines|), idx + 1, blocks, current + [Item(ExampleKind(content), content, idx)], groupCount)
  {
    var facts := FactTable(lines, |lines|);
    var content := BulletContent(lines[idx]);
    NewItemPlaced(lines, facts, idx, ExampleKind(content));
    CurrentPush(facts, groupCount, idx, current, Item(ExampleKind(content), content, idx));
    forall k | 0 <= k < |blocks| {
      BlockBeforeLater(blocks[k], idx, idx + 1);
    }
  }

  /** A placed item of line `idx` joins the open group after the items of earlier lines. */
  lemma CurrentPush(facts: seq<LineFacts>, groupCount: nat, idx: nat, current: seq<Item>, item: Item)
    requires ItemsInOrder(current)
    requires forall i :: 0 <= i < |current| ==> current[i].idx < idx && ItemPlaced(facts, current[i], groupCount)
    requires item.idx == idx && ItemPlaced(facts, item, groupCount)
    ensures ItemsInOrder(current + [item])
    ensures forall i :: 0 <= i < |current| + 1 ==> (current + [item])[i].idx < idx + 1 && ItemPlaced(facts, (current + [item])[i], groupCount)
  {
    var current' := current + [item];
    forall i | 0 <= i < |current'|
      ensures current'[i].idx < idx + 1 && ItemPlaced(facts, current'[i], groupCount)
    {
      if i < |current| {
        assert current'[i] == current[i];
      }
    }
    forall a, b | 0 <= a < b < |current'|
      ensures current'[a].idx < current'[b].idx
    {
      assert current'[a] == current[a];
    }
  }

  /** A general item or a plain line comes after every block drawn so far. */
  lemma ArrangeStray(lines: seq<string>, idx: nat, blocks: seq<Block>, current: seq<Item>, groupCount: nat, b: Block)
    requires idx < |lines| && Arranged(FactTable(lines, |lines|), idx, blocks, current, groupCount)
    requires current == [] ==> ExpressionCount(lines, idx) == 0
    requires b == if IsBulletLine(lines[idx]) then General(BulletContent(lines[idx]), idx) else PlainLine(lines[idx], idx)
    requires b.General? && IsExampleLine(b.content) ==> current == []
    ensures Arranged(FactTable(lines, |lines|), idx + 1, blocks + [b], current, groupCount)
  {
    var facts := FactTable(lines, |lines|);
    FactAt(lines, |lines|, idx);
    assert BlockPlaced(facts, b);
    PushKeeps(facts, idx, idx + 1, blocks, b);
  }

  /** Closing the last group keeps every block in its place. */
  lemma ArrangeFinish(facts: seq<LineFacts>, n: nat, blocks: seq<Block>, current: seq<Item>, groupCount: nat)
    requires Arranged(facts, n, blocks, current, groupCount) && (current != [] ==> groupCount >= 1)
    ensures var final := if current != [] then blocks + [Group(current, groupCount)] else blocks;
      Placed(facts, final) && StrayInOrder(final)
  {
    if current != [] {
      var g := Group(current, groupCount);
      GroupPlaced(facts, n, current, groupCount);
      PushKeeps(facts, n, n, blocks, g);
    }
  }

  /** `GroupsAmongLines` while walking, with the expressions before a line read from its facts. */
  predicate GroupsAmongStrays(facts: seq<LineFacts>, blocks: seq<Block>) {
    forall p, q :: 0 <= p < |blocks| && 0 <= q < |blocks| && blocks[p].Group? && !blocks[q].Group? && blocks[q].idx < |facts| ==>
      (p < q <==> blocks[p].groupNum < facts[blocks[q].idx].before)
  }

  /** Every group drawn so far is numbered below `count`. */
  predicate GroupsBelow(blocks: seq<Block>, count: nat) {
    forall k :: 0 <= k < |blocks| && blocks[k].Group? ==> blocks[k].groupNum < count
  }

  /** Every general item or plain line drawn so far is of a line before `n`, with at most `count` expressions before it. */
  predicate StraysCounted(facts: seq<LineFacts>, n: nat, blocks: seq<Block>, count: nat) {
    forall k :: 0 <= k < |blocks| && !blocks[k].Group? ==>
      blocks[k].idx < n <= |facts| && facts[blocks[k].idx].before <= count
  }

  /** What the walk keeps about the order of its blocks after the first `n` lines. */
  predicate OrderKept(facts: seq<LineFacts>, n: nat, st: WalkState) {
    && GroupsBelow(st.blocks, st.groupCount)
    && StraysCounted(facts, n, st.blocks, st.groupCount)
    && GroupsAmongStrays(facts, st.blocks)
  }

  predicate OrderOk(lines: seq<string>, n: nat)
    requires n <= |lines|
  {
    var st := Walk(lines, n);
    st.groupCount == ExpressionCount(lines, n) && OrderKept(FactTable(lines, |lines|), n, st)
  }

  /** Reading more lines, or opening more groups, keeps what was drawn below the new bounds. */
  lemma OrderWiden(facts: seq<LineFacts>, n: nat, m: nat, blocks: seq<Block>, count: nat, count': nat)
    requires GroupsBelow(blocks, count) && StraysCounted(facts, n, blocks, count)
    requires n <= m <= |facts| && count <= count'
    ensures GroupsBelow(blocks, count') && StraysCounted(facts, m, blocks, count')
  {
  }

  /**
   * A block pushed last keeps groups and stray lines in order: a group pushed
   * is numbered at least as high as the expressions before every stray line
   * so far, and a stray line pushed follows every group so far.
   */
  lemma OrderPush(facts: seq<LineFacts>, n: nat, m: nat, blocks: seq<Block>, count: nat, count': nat, b: Block)
    requires GroupsAmongStrays(facts, blocks) && GroupsBelow(blocks, count) && StraysCounted(facts, n, blocks, count)
    requires n <= m <= |facts| && count <= count'
    requires b.Group? ==> count <= b.groupNum < count'
    requires !b.Group? ==> b.idx < m && facts[b.idx].before == count
    ensures GroupsAmongStrays(facts, blocks + [b])
    ensures GroupsBelow(blocks + [b], count') && StraysCounted(facts, m, blocks + [b], count')
  {
    var blocks' := blocks + [b];
    forall p, q | 0 <= p < |blocks'| && 0 <= q < |blocks'| && blocks'[p].Group? && !blocks'[q].Group? && blocks'[q].idx < |facts|
      ensures p < q <==> blocks'[p].groupNum < facts[blocks'[q].idx].before
    {
      if p < |blocks| && q < |blocks| {
        assert blocks'[p] == blocks[p] && blocks'[q] == blocks[q];
      } else if p < |blocks| {
        assert blocks'[p] == blocks[p];
      } else {
        assert blocks'[q] == blocks[q];
      }
    }
    forall k | 0 <= k < |blocks|
      ensures blocks'[k] == blocks[k]
    {
    }
  }

  /** The walk keeps its order after each line, and so after them all. */
  lemma OrderKeeps(lines: seq<string>)
    ensures OrderOk(lines, |lines|) == true
  {
    var ok := (i: nat) => i <= |lines| && OrderOk(lines, i);
    assert Walk(lines, 0) == WalkState([], [], 0);
    forall i: nat | i < |lines| && OrderOk(lines, i) == true
      ensures OrderOk(lines, i + 1) == true
    {
      assert Walk(lines, i + 1) == StepLine(Walk(lines, i), lines[i], i);
      FactAt(lines, |lines|, i);
      ExpectedPush(lines, i);
      OrderStep(FactTable(lines, |lines|), i, lines[i], Walk(lines, i));
    }
    Chain(ok, 0, |lines|);
  }

  /** Each line keeps the order; `facts[idx].before` is the number of groups opened before line `idx`. */
  lemma OrderStep(facts: seq<LineFacts>, idx: nat, line: string, st: WalkState)
    requires idx < |facts| && facts[idx].before == st.groupCount && OrderKept(facts, idx, st)
    ensures OrderKept(facts, idx + 1, StepLine(st, line, idx))
  {
    if IsBulletLine(line) && IsExpression(BulletContent(line)) {
      OrderExpression(facts, idx, line, st);
    } else if IsBulletLine(line) && IsExampleLine(BulletContent(line)) && st.current != [] {
      assert StepLine(st, line, idx).blocks == st.blocks;
      OrderWiden(facts, idx, idx + 1, st.blocks, st.groupCount, st.groupCount);
    } else {
      var b := if IsBulletLine(line) then General(BulletContent(line), idx) else PlainLine(line, idx);
      assert StepLine(st, line, idx) == WalkState(st.blocks + [b], st.current, st.groupCount);
      OrderPush(facts, idx, idx + 1, st.blocks, st.groupCount, st.groupCount, b);
    }
  }

  /** An expression line pushes the open group, numbered as high as any stray line so far has expressions before it. */
  lemma OrderExpression(facts: seq<LineFacts>, idx: nat, line: string, st: WalkState)
    requires idx < |facts| && OrderKept(facts, idx, st)
    requires IsBulletLine(line) && IsExpression(BulletContent(line))
    ensures OrderKept(facts, idx + 1, StepLine(st, line, idx))
  {
    var next := [Item(Expression, BulletContent(line), idx)];
    if st.current != [] {
      var g := Group(st.current, st.groupCount);
      assert StepLine(st, line, idx) == WalkState(st.blocks + [g], next, st.groupCount + 1);
      OrderPush(facts, idx, idx + 1, st.blocks, st.groupCount, st.groupCount + 1, g);
    } else {
      assert StepLine(st, line, idx) == WalkState(st.blocks, next, st.groupCount + 1);
      OrderWiden(facts, idx, idx + 1, st.blocks, st.groupCount, st.groupCount + 1);
    }
  }

  /** The blocks drawn once the walk has pushed the group still open. */
  function Closed(st: WalkState): seq<Block> {
    if st.current != [] then st.blocks + [Group(st.current, st.groupCount)] else st.blocks
  }

  /** Closing the last group puts it after every stray line, as no expression line follows it. */
  lemma OrderClosed(lines: seq<string>)
    ensures var st := Walk(lines, |lines|);
      StraysCounted(FactTable(lines, |lines|), |lines|, Closed(st), st.groupCount + 1)
      && GroupsAmongStrays(FactTable(lines, |lines|), Closed(st))
  {
    OrderKeeps(lines);
    var facts := FactTable(lines, |lines|);
    var st := Walk(lines, |lines|);
    if st.current != [] {
      OrderPush(facts, |lines|, |lines|, st.blocks, st.groupCount, st.groupCount + 1, Group(st.current, st.groupCount));
    } else {
      OrderWiden(facts, |lines|, |lines|, st.blocks, st.groupCount, st.groupCount + 1);
    }
  }

  /**
   * Where groups fall among general items and plain lines: a group is drawn
   * before such a line exactly when more expression lines come before that
   * line than the group's number, that is, when the expression line that
   * closes the group comes before it. A group still open at the end is drawn
   * after every such line.
   */
  predicate GroupsAmongLines(lines: seq<string>, blocks: seq<Block>) {
    && (forall q :: 0 <= q < |blocks| && !blocks[q].Group? ==> blocks[q].idx < |lines|)
    && forall p, q :: 0 <= p < |blocks| && 0 <= q < |blocks| && blocks[p].Group? && !blocks[q].Group? ==>
         (p < q <==> blocks[p].groupNum < ExpressionCount(lines, blocks[q].idx))
  }

  /** The order of the section's blocks, with the expressions before each stray line counted on the lines themselves. */
  lemma OrderFinish(lines: seq<string>)
    ensures GroupsAmongLines(lines, Closed(Walk(lines, |lines|)))
  {
    OrderClosed(lines);
    var facts := FactTable(lines, |lines|);
    var blocks := Closed(Walk(lines, |lines|));
    forall q | 0 <= q < |blocks| && !blocks[q].Group?
      ensures blocks[q].idx < |lines| && facts[blocks[q].idx].before == ExpressionCount(lines, blocks[q].idx)
    {
      FactAt(lines, |lines|, blocks[q].idx);
    }
  }

  /**
   * An expression line followed by a plain line: the plain line is drawn at
   * once and the group, still open when the lines run out, only after it, so
   * the group cannot come first.
   */
  lemma PlainLineBeforeOpenGroup(lines: seq<string>, items: seq<Item>, l: string)
    requires |lines| == 2 && ExpressionCount(lines, 1) == 1
    ensures !GroupsAmongLines(lines, [Group(items, 1), PlainLine(l, 1)])
  {
    var wrong := [Group(items, 1), PlainLine(l, 1)];
    assert !(wrong[0].groupNum < ExpressionCount(lines, wrong[1].idx));
  }

  lemma FlattenPush(blocks: seq<Block>, b: Block)
    ensures Flatten(blocks + [b]) == Flatten(blocks) + BlockFlat(b)
    ensures GroupsOf(blocks + [b]) == GroupsOf(blocks) + (if b.Group? then [b] else [])
  {
    assert (blocks + [b])[..|blocks|] == blocks;
  }

  lemma NumberedPush(gs: seq<Block>, g: Block)
    requires NumberedGroups(gs) && g.Group? && g.groupNum == |gs| + 1 && WellFormedGroup(g.items)
    ensures NumberedGroups(gs + [g])
  {
    assert forall k :: 0 <= k < |gs| ==> (gs + [g])[k] == gs[k];
  }

  lemma StrayPush(blocks: seq<Block>, b: Block)
    requires StrayBlocksOk(blocks) && StrayBlockOk(b)
    ensures StrayBlocksOk(blocks + [b])
  {
    assert forall k :: 0 <= k < |blocks| ==> (blocks + [b])[k] == blocks[k];
  }

  /** An expression line closes the open group, if any, and opens the next one. */
  lemma StepExpression(lines: seq<string>, idx: nat, blocks: seq<Block>, current: seq<Item>, groupCount: nat)
    requires idx < |lines| && Walked(lines, idx, blocks, current, groupCount)
    requires IsBulletLine(lines[idx]) && IsExpression(BulletContent(lines[idx]))
    ensures var blocks' := if current != [] then blocks + [Group(current, groupCount)] else blocks;
      Walked(lines, idx + 1, blocks', [Item(Expression, BulletContent(lines[idx]), idx)], groupCount + 1)
  {
    var item := Item(Expression, BulletContent(lines[idx]), idx);
    ItemsPush([], item);
    assert [] + [item] == [item];
    ExpectedPush(lines, idx);
    if current != [] {
      CloseAndOpenGroup(lines, idx, blocks, current, groupCount, item);
    } else {
      OpenFirstGroup(lines, idx, blocks, groupCount, item);
    }
  }

  lemma OpenFirstGroup(lines: seq<string>, idx: nat, blocks: seq<Block>, groupCount: nat, item: Item)
    requires idx < |lines| && Walked(lines, idx, blocks, [], groupCount)
    requires item == Item(Expression, BulletContent(lines[idx]), idx) && IsExpression(item.content)
    requires ItemsFlat([item]) == [(idx, item.content)]
    requires Expected(lines, idx + 1) == Expected(lines, idx) + [(idx, item.content)]
    requires ExpressionCount(lines, idx + 1) == ExpressionCount(lines, idx) + 1
    ensures Walked(lines, idx + 1, blocks, [item], groupCount + 1)
  {
    assert Flatten(blocks) + ItemsFlat([]) == Flatten(blocks);
    MultisetPush(Flatten(blocks), [], Expected(lines, idx), (idx, item.content));
  }

  lemma CloseAndOpenGroup(lines: seq<string>, idx: nat, blocks: seq<Block>, current: seq<Item>, groupCount: nat, item: Item)
    requires idx < |lines| && current != [] && Walked(lines, idx, blocks, current, groupCount)
    requires item == Item(Expression, BulletContent(lines[idx]), idx) && IsExpression(item.content)
    requires ItemsFlat([item]) == [(idx, item.content)]
    requires Expected(lines, idx + 1) == Expected(lines, idx) + [(idx, item.content)]
    requires ExpressionCount(lines, idx + 1) == ExpressionCount(lines, idx) + 1
    ensures Walked(lines, idx + 1, blocks + [Group(current, groupCount)], [item], groupCount + 1)
  {
    var g := Group(current, groupCount);
    FlattenPush(blocks, g);
    NumberedPush(GroupsOf(blocks), g);
    StrayPush(blocks, g);
    MultisetPush(Flatten(blocks), ItemsFlat(current), Expected(lines, idx), (idx, item.content));
  }

  lemma StepExample(lines: seq<string>, idx: nat, blocks: seq<Block>, current: seq<Item>, groupCount: nat)
    requires idx < |lines| && Walked(lines, idx, blocks, current, groupCount)
    requires IsBulletLine(lines[idx]) && !IsExpression(BulletContent(lines[idx]))
    requires IsExampleLine(BulletContent(lines[idx])) && current != []
    ensures var content := BulletContent(lines[idx]);
      Walked(lines, idx + 1, blocks, current + [Item(ExampleKind(content), content, idx)], groupCount)
  {
    var content := BulletContent(lines[idx]);
    var item := Item(ExampleKind(content), content, idx);
    ItemsPush(current, item);
    WellFormedPush(current, item);
    ExpectedPush(lines, idx);
    MultisetPush(Flatten(blocks), ItemsFlat(current), Expected(lines, idx), (idx, content));
  }

  lemma ExpectedPush(lines: seq<string>, idx: nat)
    requires idx < |lines|
    ensures Expected(lines, idx + 1) == Expected(lines, idx) + [(idx, Displayed(lines[idx]))]
    ensures ExpressionCount(lines, idx + 1) == ExpressionCount(lines, idx)
      + (if IsBulletLine(lines[idx]) && IsExpression(BulletContent(lines[idx])) then 1 else 0)
  {
  }

  lemma MultisetPush<T>(done: seq<T>, open: seq<T>, expected: seq<T>, x: T)
    requires multiset(done + open) == multiset(expected)
    ensures multiset(done + (open + [x])) == multiset(expected + [x])
    ensures multiset((done + open) + [x]) == multiset(expected + [x])
    ensures multiset((done + [x]) + open) == multiset(expected + [x])
  {
    assert done + (open + [x]) == (done + open) + [x];
  }

  lemma ItemsPush(items: seq<Item>, item: Item)
    ensures ItemsFlat(items + [item]) == ItemsFlat(items) + [(item.idx, item.content)]
  {
    assert (items + [item])[..|items|] == items;
  }

  /** An example sentence joins a group and keeps it well formed. */
  lemma WellFormedPush(items: seq<Item>, item: Item)
    requires WellFormedGroup(items)
    requires IsExampleLine(item.content) && item.kind == ExampleKind(item.content)
    ensures WellFormedGroup(items + [item])
  {
    assert forall k :: 0 <= k < |items| ==> (items + [item])[k] == items[k];
  }

  /** A general item or a plain line is drawn at once, after what is already drawn. */
  lemma StepStray(lines: seq<string>, idx: nat, blocks: seq<Block>, current: seq<Item>, groupCount: nat, b: Block)
    requires idx < |lines| && Walked(lines, idx, blocks, current, groupCount)
    requires !(IsBulletLine(lines[idx]) && IsExpression(BulletContent(lines[idx])))
    requires b == if IsBulletLine(lines[idx]) then General(BulletContent(lines[idx]), idx) else PlainLine(lines[idx], idx)
    ensures Walked(lines, idx + 1, blocks + [b], current, groupCount)
  {
    FlattenPush(blocks, b);
    StrayPush(blocks, b);
    ExpectedPush(lines, idx);
    assert BlockFlat(b) == [(idx, Displayed(lines[idx]))];
    MultisetPush(Flatten(blocks), ItemsFlat(current), Expected(lines, idx), (idx, Displayed(lines[idx])));
  }

  /** Closing the open group at the end keeps the numbering and accounts for every line. */
  lemma FinishGroups(lines: seq<string>, blocks: seq<Block>, current: seq<Item>, groupCount: nat)
    requires Walked(lines, |lines|, blocks, current, groupCount)
    ensures var final := if current != [] then blocks + [Group(current, groupCount)] else blocks;
      && multiset(Flatten(final)) == multiset(Expected(lines, |lines|))
      && |GroupsOf(final)| == ExpressionCount(lines, |lines|)
      && NumberedGroups(GroupsOf(final))
      && StrayBlocksOk(final)
  {
    if current != [] {
      var g := Group(current, groupCount);
      FlattenPush(blocks, g);
      NumberedPush(GroupsOf(blocks), g);
      StrayPush(blocks, g);
    } else {
      assert ItemsFlat(current) == [];
      assert Flatten(blocks) + [] == Flatten(blocks);
    }
  }

  /** Line `j` is among those the block draws. */
  predicate DrawsLine(b: Block, j: nat) {
    if b.Group? then exists i :: 0 <= i < |b.items| && b.items[i].idx == j else b.idx == j
  }

  /** A section that draws every line once draws line `j` in one of its blocks. */
  lemma {:induction false} DrawnAt(lines: seq<string>, blocks: seq<Block>, j: nat) returns (k: nat)
    requires multiset(Flatten(blocks)) == multiset(Expected(lines, |lines|)) && j < |lines|
    ensures k < |blocks| && DrawsLine(blocks[k], j)
  {
    var p := (j, Displayed(lines[j]));
    ExpectedHas(lines, |lines|, j);
    assert p in multiset(Flatten(blocks));
    k := FlattenHas(blocks, j, Displayed(lines[j]));
    if blocks[k].Group? {
      var i := ItemsFlatHas(blocks[k].items, j, Displayed(lines[j]));
    }
  }

  lemma ExpectedHas(lines: seq<string>, n: nat, j: nat)
    requires j < n <= |lines|
    ensures (j, Displayed(lines[j])) in Expected(lines, n)
  {
    ExpectedAt(lines, n, j);
  }

  /** Entry `j` of the expected lines is line `j` with its drawn text. */
  lemma {:induction false} ExpectedAt(lines: seq<string>, n: nat, j: nat)
    requires j < n <= |lines|
    ensures Expected(lines, n)[j] == (j, Displayed(lines[j]))
    decreases n
  {
    if j < n - 1 {
      ExpectedAt(lines, n - 1, j);
    }
  }


  lemma {:induction false} FlattenHas(blocks: seq<Block>, idx: nat, content: string) returns (k: nat)
    requires (idx, content) in Flatten(blocks)
    ensures k < |blocks| && (idx, content) in BlockFlat(blocks[k])
  {
    var init := blocks[..|blocks| - 1];
    if (idx, content) in Flatten(init) {
      k := FlattenHas(init, idx, content);
      assert blocks[k] == init[k];
    } else {
      k := |blocks| - 1;
    }
  }

  lemma {:induction false} ItemsFlatHas(items: seq<Item>, idx: nat, content: string) returns (i: nat)
    requires (idx, content) in ItemsFlat(items)
    ensures i < |items| && items[i].idx == idx && items[i].content == content
  {
    var init := items[..|items| - 1];
    if (idx, content) in ItemsFlat(init) {
      i := ItemsFlatHas(init, idx, content);
      assert items[i] == init[i];
    } else {
      i := |items| - 1;
    }
  }

  /**
   * An example sentence before any expression line stands alone: it is
   * drawn as a general item with the bullet stripped.
   */
  lemma {:induction false} ExampleBeforeExpressions(lines: seq<string>, blocks: seq<Block>, j: nat)
    requires Placed(FactTable(lines, |lines|), blocks)
    requires multiset(Flatten(blocks)) == multiset(Expected(lines, |lines|))
    requires j < |lines| && IsBulletLine(lines[j])
    requires IsExampleLine(BulletContent(lines[j])) && !IsExpression(BulletContent(lines[j]))
    requires ExpressionCount(lines, j) == 0
    ensures General(BulletContent(lines[j]), j) in blocks
  {
    var k := DrawnAt(lines, blocks, j);
    FactAt(lines, |lines|, j);
    assert BlockPlaced(FactTable(lines, |lines|), blocks[k]);
  }

  /**
   * An example sentence after an expression line joins the group of the
   * last expression before it.
   */
  lemma {:induction false} ExampleJoinsGroup(lines: seq<string>, blocks: seq<Block>, j: nat) returns (k: nat)
    requires Placed(FactTable(lines, |lines|), blocks)
    requires multiset(Flatten(blocks)) == multiset(Expected(lines, |lines|))
    requires j < |lines| && IsBulletLine(lines[j])
    requires IsExampleLine(BulletContent(lines[j])) && !IsExpression(BulletContent(lines[j]))
    requires ExpressionCount(lines, j) > 0
    ensures k < |blocks| && blocks[k].Group? && blocks[k].groupNum == ExpressionCount(lines, j)
    ensures exists i :: 0 <= i < |blocks[k].items| && blocks[k].items[i].idx == j && blocks[k].items[i].content == BulletContent(lines[j])
  {
    k := DrawnAt(lines, blocks, j);
    FactAt(lines, |lines|, j);
    assert BlockPlaced(FactTable(lines, |lines|), blocks[k]);
    var i :| 0 <= i < |blocks[k].items| && blocks[k].items[i].idx == j;
    assert ItemPlaced(FactTable(lines, |lines|), blocks[k].items[i], blocks[k].groupNum);
  }

  /** An expression line opens a group numbered by the expression lines up to and including it. */
  lemma {:induction false} ExpressionInGroup(lines: seq<string>, blocks: seq<Block>, j: nat) returns (k: nat)
    requires Placed(FactTable(lines, |lines|), blocks) && StrayBlocksOk(blocks)
    requires multiset(Flatten(blocks)) == multiset(Expected(lines, |lines|))
    requires j < |lines| && IsBulletLine(lines[j]) && IsExpression(BulletContent(lines[j]))
    ensures k < |blocks| && blocks[k].Group? && blocks[k].groupNum == ExpressionCount(lines, j + 1)
    ensures exists i :: 0 <= i < |blocks[k].items| && blocks[k].items[i].idx == j && blocks[k].items[i].content == BulletContent(lines[j])
  {
    k := DrawnAt(lines, blocks, j);
    FactAt(lines, |lines|, j);
    assert BlockPlaced(FactTable(lines, |lines|), blocks[k]) && StrayBlockOk(blocks[k]);
    var i :| 0 <= i < |blocks[k].items| && blocks[k].items[i].idx == j;
    assert ItemPlaced(FactTable(lines, |lines|), blocks[k].items[i], blocks[k].groupNum);
  }

  /** An item of group `n` is a bullet line that comes after exactly `n` expression lines. */
  lemma {:induction false} ItemLine(lines: seq<string>, it: Item, n: nat)
    requires ItemPlaced(FactTable(lines, |lines|), it, n)
    ensures it.idx < |lines| && ExpressionCount(lines, it.idx + 1) == n
    ensures IsBulletLine(lines[it.idx]) && it.content == BulletContent(lines[it.idx])
  {
    FactAt(lines, |lines|, it.idx);
  }

  /**
   * A group draws, in line order, bullet lines that each come after exactly
   * `groupNum` expression lines.
   */
  lemma {:induction false} GroupLines(lines: seq<string>, blocks: seq<Block>, k: nat)
    requires Placed(FactTable(lines, |lines|), blocks)
    requires k < |blocks| && blocks[k].Group?
    ensures blocks[k].groupNum >= 1 && ItemsInOrder(blocks[k].items)
    ensures forall i :: 0 <= i < |blocks[k].items| ==>
      var j := blocks[k].items[i].idx;
      j < |lines| && ExpressionCount(lines, j + 1) == blocks[k].groupNum && IsBulletLine(lines[j])
      && blocks[k].items[i].content == BulletContent(lines[j])
  {
    var b := blocks[k];
    assert BlockPlaced(FactTable(lines, |lines|), b);
    forall i | 0 <= i < |b.items| {
      ItemLine(lines, b.items[i], b.groupNum);
    }
  }

  /**
   * A general item is a bullet line drawn without its bullet, an example
   * sentence only when no expression line comes before it; a plain line is
   * a line without a bullet, drawn as it is.
   */
  lemma {:induction false} StrayLine(lines: seq<string>, blocks: seq<Block>, k: nat)
    requires Placed(FactTable(lines, |lines|), blocks)
    requires k < |blocks| && !blocks[k].Group?
    ensures blocks[k].idx < |lines|
    ensures blocks[k].General? ==>
      && IsBulletLine(lines[blocks[k].idx]) && blocks[k].content == BulletContent(lines[blocks[k].idx])
      && (IsExampleLine(blocks[k].content) ==> ExpressionCount(lines, blocks[k].idx) == 0)
    ensures blocks[k].PlainLine? ==> !IsBulletLine(lines[blocks[k].idx]) && blocks[k].line == lines[blocks[k].idx]
  {
    assert BlockPlaced(FactTable(lines, |lines|), blocks[k]);
    FactAt(lines, |lines|, blocks[k].idx);
  }

  const Colon: char := ':'
  const WideColon: char := '：'

  /**
   * The later of the first `:` and the first `：` in a translation item, as
   * `Math.max` of the two `indexOf` results; -1 when there is neither.
   */
  function ColonIndex(content: string): (c: int)
    ensures -1 <= c < |content|
    ensures c == -1 <==> ':' !in content && '：' !in content
    ensures c >= 0 ==> content[c] == ':' || content[c] == '：'
    ensures c >= 0 ==> IndexOfChar(content, content[c]) == c
    ensures c >= 0 ==> IndexOfChar(content, Colon) <= c && IndexOfChar(content, WideColon) <= c
  {
    var a := IndexOfChar(content, Colon);
    var b := IndexOfChar(content, WideColon);
    if a < b then b else a
  }

  /**
   * The label drawn in bold (up to and including the colon) and the text
   * spoken and shown under it. Without a colon (`ColonIndex` is -1) the label is empty and the
   * whole item is the translation; with one, the label ends with it and label
   * and translation put back together give the item up to the white space the
   * translation loses.
   */
  function TranslationParts(content: string): (r: (string, string))
    ensures |r.0| <= |content|
    ensures ColonIndex(content) == -1 ==> r == ([], content)
    ensures ColonIndex(content) >= 0 ==>
      && |r.0| == ColonIndex(content) + 1 && (r.0[|r.0| - 1] == ':' || r.0[|r.0| - 1] == '：')
      && r.0 + content[|r.0|..] == content && r.1 == Trim(content[|r.0|..])
  {
    var c := ColonIndex(content);
    if c == -1 then ([], content)
    else
      SplitAfter(content, c);
      (content[..c + 1], Trim(content[c + 1..]))
  }

  /** Cutting just after position `c`: the first piece ends with `content[c]`, and the pieces join back. */
  lemma SplitAfter(content: string, c: nat)
    requires c < |content|
    ensures |content[..c + 1]| == c + 1 && content[..c + 1][c] == content[c]
    ensures content[..c + 1] + content[c + 1..] == content
  {
  }

  /** `[一-龯]`: a CJK unified ideograph from U+4E00 to U+9FAF. */
  predicate IsHanzi(c: char) {
    '一' <= c <= '龯'
  }

  function HasHanzi(t: string): (b: bool)
    ensures b <==> exists i :: 0 <= i < |t| && IsHanzi(t[i])
  {
    if t == [] then false
    else if IsHanzi(t[0]) then true
    else
      assert forall i :: 1 <= i < |t| ==> t[i] == t[1..][i - 1];
      HasHanzi(t[1..])
  }

  /** The language tag speech synthesis is given for a translation: Chinese exactly when the text holds no ideograph. */
  function SpeechLang(t: string): (lang: string)
    ensures lang == "zh-CN" <==> forall i :: 0 <= i < |t| ==> !IsHanzi(t[i])
    ensures lang == "ko-KR" <==> exists i :: 0 <= i < |t| && IsHanzi(t[i])
  {
    if !HasHanzi(t) then "zh-CN" else "ko-KR"
  }
}
