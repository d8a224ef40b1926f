// The words of a command: which are closed, how long they are, and whether the last one is left open.
module CommandWords {
  import opened Template

  // What a command amounts to: the expansion of what stands before a word left open, that word (empty if there
  // is none), and the lengths of the closed words, dollar signs included, in order.
  datatype Layout = Layout(text: string, open: string, closed: seq<nat>)

  function LayoutOf(ctx: Context, s: string, text: string, closed: seq<nat>): Layout
    decreases |s|
  {
    if s == [] then Layout(text, [], closed)
    else if s[0] == '\\' then
      if |s| == 1 then Layout(text, [], closed) else LayoutOf(ctx, s[2..], text + [s[1]], closed)
    else if s[0] == '$' then LayoutOfWord(ctx, s[1..], text, ['$'], closed)
    else LayoutOf(ctx, s[1..], text + [s[0]], closed)
  }

  function LayoutOfWord(ctx: Context, s: string, text: string, word: string, closed: seq<nat>): Layout
    decreases |s|
  {
    if s == [] then Layout(text, word, closed)
    else if s[0] == '\\' then
      if |s| == 1 then Layout(text, [], closed) else LayoutOfWord(ctx, s[2..], text, word + [s[1]], closed)
    else if s[0] == '$' then LayoutOf(ctx, s[1..], text + Convert(ctx, word + ['$']), closed + [|word| + 1])
    else LayoutOfWord(ctx, s[1..], text, word + [s[0]], closed)
  }

  // The length of the last closed word that is at least n long, or n if there is none.
  function Longest(closed: seq<nat>, n: nat): (r: nat)
    ensures r >= n
  {
    if closed == [] then n
    else if closed[|closed| - 1] >= n then closed[|closed| - 1]
    else Longest(closed[..|closed| - 1], n)
  }

  lemma LongestAfter(closed: seq<nat>, last: nat, n: nat)
    ensures Longest(closed + [last], n) == if last >= n then last else Longest(closed, n)
  {
    assert (closed + [last])[..|closed|] == closed;
  }

  // A command does not end in an open word, or there is room for the word it ends in. An open word takes as much
  // room as the last closed word that was at least as long.
  predicate HasRoom(ctx: Context, cmd: string) {
    var l := LayoutOf(ctx, cmd, [], []);
    l.open == [] || |l.text| + Longest(l.closed, |l.open|) < MAXSTR
  }

  // The expansion is the text before the open word and that word.
  lemma {:induction false} LayoutExpands(ctx: Context, s: string, text: string, closed: seq<nat>)
    ensures var l := LayoutOf(ctx, s, text, closed); l.text + l.open == text + Expand(ctx, s)
    decreases |s|
  {
    if s == [] || (s[0] == '\\' && |s| == 1) {
      assert text + [] == text;
    } else if s[0] == '\\' {
      LayoutExpands(ctx, s[2..], text + [s[1]], closed);
      assert text + [s[1]] + Expand(ctx, s[2..]) == text + ([s[1]] + Expand(ctx, s[2..]));
    } else if s[0] == '$' {
      LayoutOfWordExpands(ctx, s[1..], text, ['$'], closed);
    } else {
      LayoutExpands(ctx, s[1..], text + [s[0]], closed);
      assert text + [s[0]] + Expand(ctx, s[1..]) == text + ([s[0]] + Expand(ctx, s[1..]));
    }
  }

  lemma {:induction false} LayoutOfWordExpands(ctx: Context, s: string, text: string, word: string, closed: seq<nat>)
    ensures var l := LayoutOfWord(ctx, s, text, word, closed); l.text + l.open == text + ExpandWord(ctx, s, word)
    decreases |s|
  {
    if s == [] || (s[0] == '\\' && |s| == 1) {
      assert text + [] == text;
    } else if s[0] == '\\' {
      LayoutOfWordExpands(ctx, s[2..], text, word + [s[1]], closed);
    } else if s[0] == '$' {
      var conv := Convert(ctx, word + ['$']);
      LayoutExpands(ctx, s[1..], text + conv, closed + [|word| + 1]);
      assert text + conv + Expand(ctx, s[1..]) == text + (conv + Expand(ctx, s[1..]));
    } else {
      LayoutOfWordExpands(ctx, s[1..], text, word + [s[0]], closed);
    }
  }
}
