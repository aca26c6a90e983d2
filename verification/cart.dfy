/** The cart store: an ordered sequence of cart lines with merge-on-add, removal by id,
    quantity and notes edits, and the derived totals and badge count. The functions here
    describe one operation each on the cart's value; `Ordering.Session` applies them to its
    `cart` field. */
module Cart {

  /** One cart line. `id` is the opaque identifier minted when the item was added. */
  datatype Line = Line(id: string, name: string, price: real, category: string, quantity: int, notes: string)

  /** Subtotal, tax and total as `calculateTotals` returns them. */
  datatype Totals = Totals(subtotal: real, tax: real, total: real)

  /** The sales-tax rate, 8.25%. */
  const TaxRate: real := 0.0825

  /** `Array.prototype.findIndex`: the first index whose element satisfies `p`, or -1. */
  function FindIndex<T>(s: seq<T>, p: T -> bool): (r: int)
    ensures -1 <= r < |s|
    ensures r == -1 <==> forall j :: 0 <= j < |s| ==> !p(s[j])
    ensures 0 <= r ==> p(s[r]) && forall j :: 0 <= j < r ==> !p(s[j])
    decreases |s|
  {
    if s == [] then -1
    else if p(s[0]) then 0
    else
      var k := FindIndex(s[1..], p);
      if k == -1 then -1 else k + 1
  }

  /** The merge key of `addToCart`: equal name and equal notes. */
  predicate SameKey(l: Line, item: Line)
  {
    l.name == item.name && l.notes == item.notes
  }

  function KeyIndex(lines: seq<Line>, item: Line): int
  {
    FindIndex(lines, (l: Line) => SameKey(l, item))
  }

  function IdIndex(lines: seq<Line>, id: string): int
  {
    FindIndex(lines, (l: Line) => l.id == id)
  }

  /** No two lines share both name and notes. */
  ghost predicate KeysDistinct(lines: seq<Line>)
  {
    forall i, j :: 0 <= i < j < |lines| ==> !SameKey(lines[i], lines[j])
  }

  /** Every line has a quantity of at least one. */
  predicate QuantitiesPositive(lines: seq<Line>)
  {
    forall i :: 0 <= i < |lines| ==> lines[i].quantity >= 1
  }

  /** `b` keeps some of the elements of `a` in their original relative order. */
  ghost predicate IsSubsequence<T>(b: seq<T>, a: seq<T>)
    decreases |a|
  {
    if b == [] then true
    else if a == [] then false
    else (b[0] == a[0] && IsSubsequence(b[1..], a[1..])) || IsSubsequence(b, a[1..])
  }

  /** `addToCart(newItem)`: the first line with the item's name and notes gains one unit,
      keeping its own price, category and id; with no such line the item is appended. */
  function AddItem(lines: seq<Line>, item: Line): (r: seq<Line>)
    ensures (forall j :: 0 <= j < |lines| ==> !SameKey(lines[j], item)) ==> r == lines + [item]
    ensures forall i :: 0 <= i < |lines| && SameKey(lines[i], item) &&
                        (forall j :: 0 <= j < i ==> !SameKey(lines[j], item)) ==>
              r == lines[i := lines[i].(quantity := lines[i].quantity + 1)]
  {
    var i := KeyIndex(lines, item);
    if i > -1 then lines[i := lines[i].(quantity := lines[i].quantity + 1)]
    else lines + [item]
  }

  /** `r` holds no line with the id, and every other line as many times as `lines` does. */
  ghost predicate CountsWithoutId(r: seq<Line>, lines: seq<Line>, id: string)
  {
    forall l :: multiset(r)[l] == if l.id == id then 0 else multiset(lines)[l]
  }

  /** `cart.filter(item => item.id !== id)`: every line with that id is gone, every other
      line stays, as many times as it was there, in its original order. */
  function WithoutId(lines: seq<Line>, id: string): (r: seq<Line>)
    ensures forall j :: 0 <= j < |r| ==> r[j].id != id
    ensures forall j :: 0 <= j < |lines| && lines[j].id != id ==> lines[j] in r
    ensures IsSubsequence(r, lines)
    ensures CountsWithoutId(r, lines, id)
    ensures (forall j :: 0 <= j < |lines| ==> lines[j].id != id) ==> r == lines
    decreases |lines|
  {
    if lines == [] then []
    else
      var rest := WithoutId(lines[1..], id);
      FilterStepCounts(lines, rest, id);
      FilterStepKeepsAll(lines, rest, id);
      if lines[0].id == id then rest
      else
        assert ([lines[0]] + rest)[1..] == rest;
        [lines[0]] + rest
  }

  /** One step of the filter keeps the count of every line without the id and drops the
      rest. */
  lemma FilterStepCounts(lines: seq<Line>, rest: seq<Line>, id: string)
    requires |lines| > 0 && CountsWithoutId(rest, lines[1..], id)
    ensures CountsWithoutId(if lines[0].id == id then rest else [lines[0]] + rest, lines, id)
  {
    assert lines == [lines[0]] + lines[1..];
    assert multiset(lines) == multiset([lines[0]]) + multiset(lines[1..]);
    assert multiset([lines[0]] + rest) == multiset([lines[0]]) + multiset(rest);
  }

  /** One step of the filter returns the whole list when no line has the id. */
  lemma FilterStepKeepsAll(lines: seq<Line>, rest: seq<Line>, id: string)
    requires |lines| > 0
    requires (forall j :: 0 <= j < |lines[1..]| ==> lines[1..][j].id != id) ==> rest == lines[1..]
    ensures (forall j :: 0 <= j < |lines| ==> lines[j].id != id) ==>
            (if lines[0].id == id then rest else [lines[0]] + rest) == lines
  {
    if forall j :: 0 <= j < |lines| ==> lines[j].id != id {
      assert forall j :: 0 <= j < |lines[1..]| ==> lines[1..][j] == lines[j + 1];
      assert lines == [lines[0]] + lines[1..];
    }
  }

  /** `updateQuantity(id, n)`: nothing happens when no line has the id; a quantity of zero
      or less removes the line (as `removeFromCart`); otherwise only the first line with
      the id takes the new quantity. */
  function SetQuantity(lines: seq<Line>, id: string, n: int): (r: seq<Line>)
    ensures (forall j :: 0 <= j < |lines| ==> lines[j].id != id) ==> r == lines
    ensures (exists j :: 0 <= j < |lines| && lines[j].id == id) && n <= 0 ==> r == WithoutId(lines, id)
    ensures forall i :: 0 <= i < |lines| && lines[i].id == id &&
                        (forall j :: 0 <= j < i ==> lines[j].id != id) && n > 0 ==>
              r == lines[i := lines[i].(quantity := n)]
  {
    var i := IdIndex(lines, id);
    if i > -1 then
      if n <= 0 then WithoutId(lines, id) else lines[i := lines[i].(quantity := n)]
    else lines
  }

  /** `updateNotes(id, notes)`: only the notes of the first line with the id change, and no
      merge with an equal-keyed line is attempted; an absent id leaves the cart alone. */
  function SetNotes(lines: seq<Line>, id: string, notes: string): (r: seq<Line>)
    ensures (forall j :: 0 <= j < |lines| ==> lines[j].id != id) ==> r == lines
    ensures forall i :: 0 <= i < |lines| && lines[i].id == id &&
                        (forall j :: 0 <= j < i ==> lines[j].id != id) ==>
              r == lines[i := lines[i].(notes := notes)]
  {
    var i := IdIndex(lines, id);
    if i > -1 then lines[i := lines[i].(notes := notes)] else lines
  }

  /** The contribution of one line to the subtotal. */
  function LineCost(l: Line): real
  {
    l.price * l.quantity as real
  }

  /** `cart.reduce((total, item) => total + item.price * item.quantity, 0)`: a sum of line
      costs that are none of them negative is not negative. */
  function Subtotal(lines: seq<Line>): (r: real)
    ensures (forall j :: 0 <= j < |lines| ==> LineCost(lines[j]) >= 0.0) ==> r >= 0.0
    decreases |lines|
  {
    if lines == [] then 0.0
    else
      var init := lines[..|lines| - 1];
      assert forall j :: 0 <= j < |init| ==> init[j] == lines[j];
      Subtotal(init) + LineCost(lines[|lines| - 1])
  }

  /** `cart.reduce((sum, item) => sum + item.quantity, 0)`: the badge count; with every
      quantity at least one it is at least the number of lines. */
  function ItemCount(lines: seq<Line>): (n: int)
    ensures QuantitiesPositive(lines) ==> n >= |lines|
    decreases |lines|
  {
    if lines == [] then 0
    else
      var init := lines[..|lines| - 1];
      assert forall j :: 0 <= j < |init| ==> init[j] == lines[j];
      ItemCount(init) + lines[|lines| - 1].quantity
  }

  /** `calculateTotals()`: the subtotal is the sum of the line costs, the tax is exactly
      8.25% of it and the total is the subtotal plus that tax; nothing is rounded. */
  function CalculateTotals(lines: seq<Line>): (t: Totals)
    ensures t.subtotal == Subtotal(lines)
    ensures t.total == t.subtotal * 1.0825 && t.total - t.tax == t.subtotal
  {
    var subtotal := Subtotal(lines);
    var tax := subtotal * TaxRate;
    Totals(subtotal, tax, subtotal + tax)
  }

  /** For non-negative prices and positive quantities the three amounts are non-negative
      and ordered: tax, then subtotal, below the total. */
  lemma TotalsNonNegative(lines: seq<Line>)
    requires QuantitiesPositive(lines)
    requires forall j :: 0 <= j < |lines| ==> lines[j].price >= 0.0
    ensures var t := CalculateTotals(lines);
      0.0 <= t.subtotal && 0.0 <= t.tax <= t.total && t.subtotal <= t.total
  {
    SubtotalNonNegative(lines);
  }

  /** With non-negative prices and positive quantities the subtotal is not negative and
      no single line costs more than the whole cart. */
  lemma {:induction false} SubtotalNonNegative(lines: seq<Line>)
    requires QuantitiesPositive(lines)
    requires forall j :: 0 <= j < |lines| ==> lines[j].price >= 0.0
    ensures Subtotal(lines) >= 0.0
    ensures forall j :: 0 <= j < |lines| ==> LineCost(lines[j]) <= Subtotal(lines)
    decreases |lines|
  {
    if lines != [] {
      var init := lines[..|lines| - 1];
      assert forall j :: 0 <= j < |init| ==> init[j] == lines[j];
      SubtotalNonNegative(init);
      assert LineCost(lines[|lines| - 1]) >= 0.0;
    }
  }

  /** The subtotal and the item count add up over a concatenation: insertion order does
      not matter to the totals. */
  lemma {:induction false} SumsAppend(a: seq<Line>, b: seq<Line>)
    ensures Subtotal(a + b) == Subtotal(a) + Subtotal(b)
    ensures ItemCount(a + b) == ItemCount(a) + ItemCount(b)
    decreases |b|
  {
    if b != [] {
      var init := b[..|b| - 1];
      assert (a + b)[..|a + b| - 1] == a + init;
      SumsAppend(a, init);
    } else {
      assert a + b == a;
    }
  }

  /** Replacing one line changes the sums by exactly the difference of the two lines. */
  lemma {:induction false} SumsReplace(lines: seq<Line>, i: int, x: Line)
    requires 0 <= i < |lines|
    ensures Subtotal(lines[i := x]) == Subtotal(lines) - LineCost(lines[i]) + LineCost(x)
    ensures ItemCount(lines[i := x]) == ItemCount(lines) - lines[i].quantity + x.quantity
  {
    var before, after := lines[..i], lines[i + 1..];
    assert lines == before + [lines[i]] + after;
    assert lines[i := x] == before + [x] + after;
    SumsAppend(before + [lines[i]], after);
    SumsAppend(before + [x], after);
    SumsAppend(before, [lines[i]]);
    SumsAppend(before, [x]);
    assert [x][..0] == [];
    assert [lines[i]][..0] == [];
  }

  /** Adding an item raises the badge count by one when it merges and by the item's own
      quantity when it is appended; the subtotal rises by the merged line's price (not the
      new item's) or by the appended item's cost. */
  lemma AddItemSums(lines: seq<Line>, item: Line)
    ensures KeyIndex(lines, item) >= 0 ==>
      ItemCount(AddItem(lines, item)) == ItemCount(lines) + 1 &&
      Subtotal(AddItem(lines, item)) == Subtotal(lines) + lines[KeyIndex(lines, item)].price
    ensures KeyIndex(lines, item) == -1 ==>
      ItemCount(AddItem(lines, item)) == ItemCount(lines) + item.quantity &&
      Subtotal(AddItem(lines, item)) == Subtotal(lines) + LineCost(item)
  {
    var i := KeyIndex(lines, item);
    if i >= 0 {
      assert AddItem(lines, item) == lines[i := lines[i].(quantity := lines[i].quantity + 1)];
      OneMoreUnitSums(lines, i);
    } else {
      assert AddItem(lines, item) == lines + [item];
      SumsAppend(lines, [item]);
      assert [item][..0] == [];
    }
  }

  /** One more unit on line i adds one to the count and the line's price to the subtotal. */
  lemma OneMoreUnitSums(lines: seq<Line>, i: int)
    requires 0 <= i < |lines|
    ensures var more := lines[i := lines[i].(quantity := lines[i].quantity + 1)];
      ItemCount(more) == ItemCount(lines) + 1 && Subtotal(more) == Subtotal(lines) + lines[i].price
  {
    SumsReplace(lines, i, lines[i].(quantity := lines[i].quantity + 1));
    OneMoreUnit(lines[i]);
  }

  lemma OneMoreUnit(l: Line)
    ensures LineCost(l.(quantity := l.quantity + 1)) == LineCost(l) + l.price
  {
    var q := l.quantity as real;
    calc {
      LineCost(l.(quantity := l.quantity + 1));
      l.price * (q + 1.0);
      l.price * q + l.price;
    }
  }

  /** Adding keeps the cart free of duplicate (name, notes) keys. */
  lemma AddItemKeepsKeysDistinct(lines: seq<Line>, item: Line)
    requires KeysDistinct(lines)
    ensures KeysDistinct(AddItem(lines, item))
  {
    var r := AddItem(lines, item);
    if KeyIndex(lines, item) == -1 {
      forall i, j | 0 <= i < j < |r| ensures !SameKey(r[i], r[j]) {
        if j == |lines| { assert !SameKey(lines[i], item); }
      }
    }
  }

  /** Removing keeps every quantity positive: the remaining lines are lines of the cart. */
  lemma RemovalKeepsQuantitiesPositive(lines: seq<Line>, id: string)
    requires QuantitiesPositive(lines)
    ensures QuantitiesPositive(WithoutId(lines, id))
  {
    var w := WithoutId(lines, id);
    forall j | 0 <= j < |w| ensures w[j].quantity >= 1 {
      SubsequenceMembers(w, lines, j);
    }
  }

  /** Replacing one line by a line of positive quantity keeps every quantity positive. */
  lemma ReplaceKeepsQuantitiesPositive(lines: seq<Line>, i: int, l: Line)
    requires QuantitiesPositive(lines) && 0 <= i < |lines| && l.quantity >= 1
    ensures QuantitiesPositive(lines[i := l])
  {
  }

  /** A quantity edit keeps every quantity positive: a non-positive quantity removes the
      line instead of storing it. */
  lemma SetQuantityKeepsQuantitiesPositive(lines: seq<Line>, id: string, n: int)
    requires QuantitiesPositive(lines)
    ensures QuantitiesPositive(SetQuantity(lines, id, n))
  {
    var i := IdIndex(lines, id);
    if i > -1 {
      if n <= 0 {
        RemovalKeepsQuantitiesPositive(lines, id);
      } else {
        ReplaceKeepsQuantitiesPositive(lines, i, lines[i].(quantity := n));
      }
    }
  }

  /** A notes edit leaves every quantity as it was. */
  lemma SetNotesKeepsQuantitiesPositive(lines: seq<Line>, id: string, notes: string)
    requires QuantitiesPositive(lines)
    ensures QuantitiesPositive(SetNotes(lines, id, notes))
  {
    var i := IdIndex(lines, id);
    if i > -1 {
      ReplaceKeepsQuantitiesPositive(lines, i, lines[i].(notes := notes));
    }
  }

  /** Adding an item of positive quantity keeps every quantity positive. */
  lemma AddItemKeepsQuantitiesPositive(lines: seq<Line>, item: Line)
    requires QuantitiesPositive(lines) && item.quantity >= 1
    ensures QuantitiesPositive(AddItem(lines, item))
  {
    var k := KeyIndex(lines, item);
    if k > -1 {
      ReplaceKeepsQuantitiesPositive(lines, k, lines[k].(quantity := lines[k].quantity + 1));
    }
  }

  lemma {:induction false} SubsequenceMembers<T>(b: seq<T>, a: seq<T>, k: int)
    requires IsSubsequence(b, a) && 0 <= k < |b|
    ensures b[k] in a
    decreases |a|
  {
    if b[0] == a[0] && IsSubsequence(b[1..], a[1..]) {
      if k > 0 { SubsequenceMembers(b[1..], a[1..], k - 1); }
    } else {
      SubsequenceMembers(b, a[1..], k);
    }
  }

  /** Removal and quantity edits keep keys distinct; notes edits may not. */
  lemma RemovalKeepsKeysDistinct(lines: seq<Line>, id: string, n: int)
    requires KeysDistinct(lines)
    ensures KeysDistinct(WithoutId(lines, id))
    ensures KeysDistinct(SetQuantity(lines, id, n))
  {
    SubsequenceKeepsKeysDistinct(WithoutId(lines, id), lines);
  }

  lemma {:induction false} SubsequenceKeepsKeysDistinct(b: seq<Line>, a: seq<Line>)
    requires KeysDistinct(a) && IsSubsequence(b, a)
    ensures KeysDistinct(b)
    decreases |a|
  {
    if b != [] {
      assert forall j :: 1 <= j < |a| ==> a[j] == a[1..][j - 1];
      if b[0] == a[0] && IsSubsequence(b[1..], a[1..]) {
        SubsequenceKeepsKeysDistinct(b[1..], a[1..]);
        forall j | 0 < j < |b| ensures !SameKey(b[0], b[j]) {
          SubsequenceMembers(b[1..], a[1..], j - 1);
        }
        forall i, j | 0 <= i < j < |b| ensures !SameKey(b[i], b[j]) {
          if i > 0 { assert b[i] == b[1..][i - 1] && b[j] == b[1..][j - 1]; }
        }
      } else {
        SubsequenceKeepsKeysDistinct(b, a[1..]);
      }
    }
  }

  /** `updateNotes` does not re-merge: starting from a cart without duplicate keys it can
      produce two lines with equal name and notes. */
  lemma SetNotesMayDuplicateKeys()
    ensures exists lines: seq<Line>, id, notes ::
              KeysDistinct(lines) && !KeysDistinct(SetNotes(lines, id, notes))
  {
    var a := Line("taco-1", "Taco", 3.5, "Tacos", 1, "");
    var b := Line("taco-2", "Taco", 3.5, "Tacos", 1, "no onions");
    var lines := [a, b];
    var r := SetNotes(lines, "taco-2", "");
    assert r == [a, b.(notes := "")];
    assert SameKey(r[0], r[1]);
  }

  /** `addToCart` applied to each item in turn. */
  function AddAll(lines: seq<Line>, items: seq<Line>): seq<Line>
    decreases |items|
  {
    if items == [] then lines else AddItem(AddAll(lines, items[..|items| - 1]), items[|items| - 1])
  }

  /** Adding n items of one (name, notes) key, each of quantity one as the menu buttons
      create them, to a cart without that key leaves exactly one line with the key, at the
      end, with quantity n and the id, price and category of the first item. */
  lemma {:induction false} AddSameKeyRepeatedly(lines: seq<Line>, items: seq<Line>)
    requires items != []
    requires forall k :: 0 <= k < |items| ==> items[k].quantity == 1 && SameKey(items[k], items[0])
    requires forall j :: 0 <= j < |lines| ==> !SameKey(lines[j], items[0])
    ensures AddAll(lines, items) == lines + [items[0].(quantity := |items|)]
    decreases |items|
  {
    var n := |items|;
    if n == 1 {
      assert AddAll(lines, items[..0]) == lines;
      assert items[0] == items[0].(quantity := 1);
    } else {
      var init := items[..n - 1];
      AddSameKeyRepeatedly(lines, init);
      assert AddAll(lines, items) == AddItem(AddAll(lines, init), items[n - 1]);
      MergeIntoLast(lines, items[0], items[n - 1], n - 1);
    }
  }

  /** An item whose key only the last line has merges into that line. */
  lemma MergeIntoLast(lines: seq<Line>, first: Line, item: Line, m: int)
    requires SameKey(item, first)
    requires forall j :: 0 <= j < |lines| ==> !SameKey(lines[j], first)
    ensures AddItem(lines + [first.(quantity := m)], item) == lines + [first.(quantity := m + 1)]
  {
    var prev := lines + [first.(quantity := m)];
    assert forall j :: 0 <= j < |lines| ==> prev[j] == lines[j] && !SameKey(prev[j], item);
    assert SameKey(prev[|lines|], item);
    assert KeyIndex(prev, item) == |lines|;
  }

  /** A concrete check of the totals: one item at 10.00 and two at 5.50 give a subtotal of
      21.00, a tax of 1.7325 (shown as 1.73) and a total of 22.7325 (shown as 22.73). */
  lemma TotalsExample()
    ensures var t := CalculateTotals([Line("a", "A", 10.0, "X", 1, ""), Line("b", "B", 5.5, "X", 2, "")]);
      t.subtotal == 21.0 && t.tax == 1.7325 && t.total == 22.7325
  {
    var lines := [Line("a", "A", 10.0, "X", 1, ""), Line("b", "B", 5.5, "X", 2, "")];
    assert lines[..1] == [lines[0]];
    assert lines[..1][..0] == [];
    assert Subtotal(lines[..1]) == 10.0;
    assert Subtotal(lines) == Subtotal(lines[..1]) + LineCost(lines[1]);
  }
}
