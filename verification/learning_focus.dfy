/**
 * The sentence "I'm currently focused on learning a, b and c." on the About
 * page: every item is followed by a separator chosen from its index alone —
 * nothing after the last item, " and " after the one before it, ", " after
 * every earlier one.
 */
module LearningFocus {

  /** The separator rendered after the item at `index` of a list of `n` items. */
  function Separator(n: nat, index: nat): (r: string)
    ensures r == "" || r == ", " || r == " and "
    ensures r == "" <==> index + 1 >= n
    ensures r == " and " <==> index + 2 == n
  {
    if index < n - 1 then (if index == n - 2 then " and " else ", ") else ""
  }

  /** The fragment rendered for each item: the item, then its separator. */
  function Fragments(items: seq<string>): (fs: seq<string>)
    ensures |fs| == |items|
  {
    seq(|items|, i requires 0 <= i < |items| => items[i] + Separator(|items|, i))
  }

  /** Concatenation of rendered fragments, as they appear in the text. */
  function Concat(fs: seq<string>): string {
    if |fs| == 0 then "" else fs[0] + Concat(fs[1..])
  }

  /** The sentence as the page renders it: the English list of the items. */
  function Render(items: seq<string>): (r: string)
    ensures r == Join(items)
  {
    RenderIsJoin(items);
    Concat(Fragments(items))
  }

  /** The usual English list, defined on its own: "a", "a and b", "a, b and c". */
  function Join(items: seq<string>): string
    decreases |items|
  {
    if |items| == 0 then ""
    else if |items| == 1 then items[0]
    else if |items| == 2 then items[0] + " and " + items[1]
    else items[0] + ", " + Join(items[1..])
  }

  /** Every suffix of the rendered fragments reads as the English list of the
      corresponding suffix of the items. */
  lemma {:induction false} SuffixRendersAsJoin(items: seq<string>, k: nat)
    requires k <= |items|
    ensures Concat(Fragments(items)[k..]) == Join(items[k..])
    decreases |items| - k
  {
    var fs := Fragments(items);
    if k < |items| {
      SuffixRendersAsJoin(items, k + 1);
      assert fs[k..][1..] == fs[k + 1..];
      assert items[k..][1..] == items[k + 1..];
      assert fs[k] == items[k] + Separator(|items|, k);
      if |items| - k == 2 {
        assert fs[k + 1..][1..] == [];
        assert Concat(fs[k + 1..]) == items[k + 1] + "" + Concat([]);
      }
    } else {
      assert fs[k..] == [];
    }
  }

  /** The page renders exactly the English list of its items. */
  lemma RenderIsJoin(items: seq<string>)
    ensures Concat(Fragments(items)) == Join(items)
  {
    SuffixRendersAsJoin(items, 0);
    assert Fragments(items)[0..] == Fragments(items);
    assert items[0..] == items;
  }

  /** Examples of one, two and three items. */
  lemma SmallLists(a: string, b: string, c: string)
    ensures Render([]) == ""
    ensures Render([a]) == a
    ensures Render([a, b]) == a + " and " + b
    ensures Render([a, b, c]) == a + ", " + b + " and " + c
  {
    RenderIsJoin([]);
    RenderIsJoin([a]);
    RenderIsJoin([a, b]);
    RenderIsJoin([a, b, c]);
    assert [a, b, c][1..] == [b, c];
  }

  /** Total length of the items. */
  function TotalLength(items: seq<string>): nat {
    if |items| == 0 then 0 else |items[0]| + TotalLength(items[1..])
  }

  /** The separators of `n` items: none for one item, " and " (5 code units)
      for two, and 2 more for each ", " beyond that. */
  function SeparatorLength(n: nat): nat {
    if n <= 1 then 0 else 5 + 2 * (n - 2)
  }

  /** The length of the text is the items' total length plus the
      separators' total length. */
  lemma {:induction false} JoinLength(items: seq<string>)
    ensures |Join(items)| == TotalLength(items) + SeparatorLength(|items|)
    decreases |items|
  {
    if |items| == 1 {
      assert TotalLength(items) == |items[0]| + TotalLength([]);
    } else if |items| == 2 {
      assert items[1..][1..] == [];
      assert TotalLength(items) == |items[0]| + |items[1]| + TotalLength([]);
    } else if |items| > 2 {
      JoinLength(items[1..]);
    }
  }

  /** The text starts with the first item and ends with the last. */
  lemma {:induction false} JoinOrder(items: seq<string>)
    requires |items| > 0
    ensures items[0] <= Join(items)
    ensures |items[|items| - 1]| <= |Join(items)|
    ensures Join(items)[|Join(items)| - |items[|items| - 1]|..] == items[|items| - 1]
    decreases |items|
  {
    if |items| > 2 {
      JoinOrder(items[1..]);
      var rest := Join(items[1..]);
      var last := items[|items| - 1];
      assert items[1..][|items[1..]| - 1] == last;
      assert Join(items) == (items[0] + ", ") + rest;
      assert Join(items)[|Join(items)| - |last|..] == rest[|rest| - |last|..];
    }
  }

  /** The fragment of every item starts with that item and carries the separator of its index. */
  lemma FragmentShape(items: seq<string>, i: nat)
    requires i < |items|
    ensures items[i] <= Fragments(items)[i]
    ensures i == |items| - 1 ==> Fragments(items)[i] == items[i]
    ensures i == |items| - 2 ==> Fragments(items)[i] == items[i] + " and "
    ensures i < |items| - 2 ==> Fragments(items)[i] == items[i] + ", "
  {
  }

  /** Total length of the separators rendered after the first `i` of `n` items. */
  function SeparatorsBefore(n: nat, i: nat): nat {
    if i == 0 then 0 else SeparatorsBefore(n, i - 1) + |Separator(n, i - 1)|
  }

  lemma {:induction false} TotalLengthAppend(items: seq<string>, x: string)
    ensures TotalLength(items + [x]) == TotalLength(items) + |x|
    decreases |items|
  {
    if |items| > 0 {
      assert (items + [x])[1..] == items[1..] + [x];
      TotalLengthAppend(items[1..], x);
    } else {
      assert (items + [x])[1..] == [];
    }
  }

  /** The text of a list of fragments splits at any index. */
  lemma {:induction false} ConcatSplit(fs: seq<string>, i: nat)
    requires i <= |fs|
    ensures Concat(fs) == Concat(fs[..i]) + Concat(fs[i..])
    decreases i
  {
    if i > 0 {
      ConcatSplit(fs[1..], i - 1);
      assert fs[1..][..i - 1] == fs[..i][1..];
      assert fs[1..][i - 1..] == fs[i..];
    } else {
      assert fs[..0] == [];
      assert fs[0..] == fs;
    }
  }

  /** The rendered text before item `i` is the earlier items and their separators. */
  lemma {:induction false} PrefixLength(items: seq<string>, i: nat)
    requires i <= |items|
    ensures |Concat(Fragments(items)[..i])| == TotalLength(items[..i]) + SeparatorsBefore(|items|, i)
    decreases i
  {
    var fs := Fragments(items);
    if i == 0 {
      assert fs[..0] == [] && items[..0] == [];
    } else {
      PrefixLength(items, i - 1);
      ConcatSplit(fs[..i], i - 1);
      assert fs[..i][..i - 1] == fs[..i - 1];
      assert fs[..i][i - 1..] == [fs[i - 1]];
      assert Concat([fs[i - 1]]) == fs[i - 1] + Concat([]);
      assert items[..i] == items[..i - 1] + [items[i - 1]];
      TotalLengthAppend(items[..i - 1], items[i - 1]);
    }
  }

  /** Where item `i` starts in the text: after the earlier items and their separators. */
  function ItemOffset(items: seq<string>, i: nat): nat
    requires i <= |items|
  {
    TotalLength(items[..i]) + SeparatorsBefore(|items|, i)
  }

  /** Items appear in their order, each at its own place: item `i` sits right
      after the earlier items and their separators, and is followed by the
      separator of its index. */
  lemma ItemPosition(items: seq<string>, i: nat)
    requires i < |items|
    ensures ItemOffset(items, i) + |items[i]| + |Separator(|items|, i)| <= |Render(items)|
    ensures Render(items)[ItemOffset(items, i)..ItemOffset(items, i) + |items[i]|] == items[i]
    ensures Render(items)[ItemOffset(items, i) + |items[i]|..ItemOffset(items, i) + |items[i]| + |Separator(|items|, i)|]
      == Separator(|items|, i)
  {
    FragmentsItemPosition(items, i);
  }

  lemma FragmentsItemPosition(items: seq<string>, i: nat)
    requires i < |items|
    ensures ItemOffset(items, i) + |items[i]| + |Separator(|items|, i)| <= |Concat(Fragments(items))|
    ensures Concat(Fragments(items))[ItemOffset(items, i)..ItemOffset(items, i) + |items[i]|] == items[i]
    ensures Concat(Fragments(items))[ItemOffset(items, i) + |items[i]|..ItemOffset(items, i) + |items[i]| + |Separator(|items|, i)|]
      == Separator(|items|, i)
  {
    var fs := Fragments(items);
    var sep := Separator(|items|, i);
    assert fs[i] == items[i] + sep;
    PrefixLength(items, i);
    FragmentInText(fs, i, items[i], sep, ItemOffset(items, i));
  }

  /** A fragment `x + sep` of a list shows up in its text at offset `o`, right
      after the earlier fragments. */
  lemma FragmentInText(fs: seq<string>, i: nat, x: string, sep: string, o: nat)
    requires i < |fs| && fs[i] == x + sep
    requires o == |Concat(fs[..i])|
    ensures o + |x| + |sep| <= |Concat(fs)|
    ensures Concat(fs)[o..o + |x|] == x
    ensures Concat(fs)[o + |x|..o + |x| + |sep|] == sep
  {
    ConcatSplit(fs, i);
    assert fs[i..][1..] == fs[i + 1..];
    assert Concat(fs[i..]) == fs[i] + Concat(fs[i + 1..]);
    Infix(Concat(fs[..i]), x, sep, Concat(fs[i + 1..]));
  }

  /** Where the middle parts of a concatenation sit. */
  lemma Infix(a: string, b: string, c: string, d: string)
    ensures |a| + |b| + |c| <= |a + (b + c) + d|
    ensures (a + (b + c) + d)[|a|..|a| + |b|] == b
    ensures (a + (b + c) + d)[|a| + |b|..|a| + |b| + |c|] == c
  {
  }
}
