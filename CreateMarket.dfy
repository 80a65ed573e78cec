/** The outcome lists of the create-market form
    (packages/augur-ui/src/modules/create-market/components/common.tsx):
    the editable `NumberedList`, the reducer behind the categorical outcome
    dropdowns, the initial categorical outcome list, the category banner and
    the defaults the time selector fills in on focus. React's `setState` and
    the `updateList`/`onChange` callbacks are modelled by updating the fields
    and returning the value array the callback would receive. */
module CreateMarket {
  import opened Common

  /** One row of an outcome list. */
  datatype Item = Item(value: string, editable: bool)

  const Blank: Item := Item("", true)

  /** `list.map(item => item.value)`, the array handed to the list callbacks. */
  function Values(items: seq<Item>): (r: seq<string>)
    ensures |r| == |items|
    ensures forall i :: 0 <= i < |items| ==> r[i] == items[i].value
  {
    seq(|items|, i requires 0 <= i < |items| => items[i].value)
  }

  // ---------------------------------------------------------------------
  // Array.prototype.splice(start, 1)
  // ---------------------------------------------------------------------

  /** The start position `splice` uses: a negative start counts back from the end
      (clamped at 0), a start past the end is clamped to the length. */
  function SpliceStart(len: nat, start: int): (k: nat)
    ensures k <= len
  {
    if start < 0 then (if len + start < 0 then 0 else len + start)
    else if start > len then len
    else start
  }

  /** The array left by `xs.splice(start, 1)`. */
  function SpliceOne<T>(xs: seq<T>, start: int): seq<T>
  {
    var k := SpliceStart(|xs|, start);
    if k < |xs| then xs[..k] + xs[k + 1..] else xs
  }

  /** With an index inside the array exactly that element goes and the others keep their
      order; from the end backwards for a negative index; past the end nothing goes. */
  lemma SpliceOneMeaning<T>(xs: seq<T>, start: int)
    ensures 0 <= start < |xs| ==>
      |SpliceOne(xs, start)| == |xs| - 1 &&
      (forall i :: 0 <= i < start ==> SpliceOne(xs, start)[i] == xs[i]) &&
      (forall i :: start <= i < |xs| - 1 ==> SpliceOne(xs, start)[i] == xs[i + 1])
    ensures 0 <= start < |xs| ==> multiset(SpliceOne(xs, start)) + multiset{xs[start]} == multiset(xs)
    ensures -|xs| <= start < 0 ==> SpliceOne(xs, start) == SpliceOne(xs, |xs| + start)
    ensures start >= |xs| ==> SpliceOne(xs, start) == xs
  {
    if 0 <= start < |xs| {
      assert xs == xs[..start] + [xs[start]] + xs[start + 1..];
    }
  }

  // ---------------------------------------------------------------------
  // NumberedList
  // ---------------------------------------------------------------------

  /** The `NumberedList` component: its state `list`, `isFull` and `isMin`,
      and the `minShown` and `maxList` props. */
  class NumberedList {
    var list: seq<Item>
    var isFull: bool
    var isMin: bool
    const minShown: int
    const maxList: int

    /** The flags describe the length the way the component computes them: by equality. */
    ghost predicate Valid()
      reads this
    {
      isFull == (|list| == maxList) && isMin == (|list| == minShown)
    }

    /** The initial state, taken from the `initialList` prop. */
    constructor (initialList: seq<Item>, minShown: int, maxList: int)
      ensures Valid()
      ensures list == initialList
      ensures this.minShown == minShown && this.maxList == maxList
    {
      this.minShown := minShown;
      this.maxList := maxList;
      list := initialList;
      isFull := |initialList| == maxList;
      isMin := |initialList| == minShown;
    }

    /** `onChange(value, index)`: only the value of row `index` changes. */
    method OnChange(value: string, index: int) returns (updated: seq<string>)
      requires Valid()
      requires 0 <= index < |list|
      modifies this
      ensures Valid()
      ensures |list| == |old(list)|
      ensures list[index].value == value && list[index].editable == old(list)[index].editable
      ensures forall i :: 0 <= i < |list| && i != index ==> list[i] == old(list)[i]
      ensures isFull == old(isFull) && isMin == old(isMin)
      ensures updated == Values(list)
    {
      list := list[index := Item(value, list[index].editable)];
      updated := Values(list);
    }

    /** `addItem`: a full list is left alone; otherwise one blank editable row is
        appended and the flags are recomputed. A list that starts no longer than
        `maxList` never grows past it. */
    method AddItem() returns (updated: Option<seq<string>>)
      requires Valid()
      modifies this
      ensures Valid()
      ensures old(isFull) ==> list == old(list) && updated.None?
      ensures !old(isFull) ==> list == old(list) + [Blank] && updated == Some(Values(list))
      ensures |old(list)| <= maxList ==> |list| <= maxList
    {
      if !isFull {
        list := list + [Blank];
        isFull := |list| == maxList;
        isMin := |list| == minShown;
        updated := Some(Values(list));
      } else {
        updated := None;
      }
    }

    /** `removeItem(index)`: at the minimum nothing changes; otherwise the row goes as
        `splice(index, 1)` removes it and the flags are recomputed. A list that starts
        no shorter than `minShown` never shrinks below it. */
    method RemoveItem(index: int) returns (updated: Option<seq<string>>)
      requires Valid()
      modifies this
      ensures Valid()
      ensures old(isMin) ==> list == old(list) && updated.None?
      ensures !old(isMin) ==> list == SpliceOne(old(list), index) && updated == Some(Values(list))
      ensures !old(isMin) && 0 <= index < |old(list)| ==>
        |list| == |old(list)| - 1 &&
        (forall i :: 0 <= i < index ==> list[i] == old(list)[i]) &&
        (forall i :: index <= i < |list| ==> list[i] == old(list)[i + 1])
      ensures |old(list)| >= minShown ==> |list| >= minShown
    {
      if !isMin {
        SpliceOneMeaning(list, index);
        list := SpliceOne(list, index);
        isMin := |list| == minShown;
        isFull := |list| == maxList;
        updated := Some(Values(list));
      } else {
        updated := None;
      }
    }
  }

  // ---------------------------------------------------------------------
  // The CategoricalTemplateDropdowns reducer
  // ---------------------------------------------------------------------

  /** A dispatched action: its `type` string and its `data` item. */
  datatype DropdownAction = DropdownAction(kind: string, data: Item)

  const ADD: string := "ADD"
  const REMOVE: string := "REMOVE"
  const REMOVE_ALL: string := "REMOVE_ALL"
  const INIT_ADD: string := "INIT_ADD"

  /** The filter `s => s.value !== v`. */
  function OtherValue(v: string): Item -> bool
  {
    (item: Item) => item.value != v
  }

  /** The reducer: ADD and INIT_ADD append the item, REMOVE drops every item carrying
      its value, REMOVE_ALL empties the list, any other type keeps the state. */
  function DropdownReduce(state: seq<Item>, action: DropdownAction): (r: seq<Item>)
    ensures action.kind == ADD || action.kind == INIT_ADD ==> r == state + [action.data]
    ensures action.kind == REMOVE ==>
      (forall i :: 0 <= i < |r| ==> r[i] in state && r[i].value != action.data.value) &&
      (forall i :: 0 <= i < |state| && state[i].value != action.data.value ==> state[i] in r)
    ensures action.kind == REMOVE_ALL ==> r == []
    ensures action.kind !in {ADD, REMOVE, REMOVE_ALL, INIT_ADD} ==> r == state
  {
    if action.kind == ADD then state + [action.data]
    else if action.kind == REMOVE then Filter(OtherValue(action.data.value), state)
    else if action.kind == REMOVE_ALL then []
    else if action.kind == INIT_ADD then state + [action.data]
    else state
  }

  /** The values passed to `props.onChange('outcomes', ...)`: ADD, REMOVE and REMOVE_ALL
      report the new list, INIT_ADD and unknown actions report nothing. */
  function DropdownNotification(state: seq<Item>, action: DropdownAction): (r: Option<seq<string>>)
    ensures r.Some? <==> action.kind in {ADD, REMOVE, REMOVE_ALL}
    ensures r.Some? ==> r.value == Values(DropdownReduce(state, action))
  {
    if action.kind == ADD || action.kind == REMOVE then Some(Values(DropdownReduce(state, action)))
    else if action.kind == REMOVE_ALL then Some([])
    else None
  }

  /** REMOVE keeps the order of the survivors, and the survivors together with the
      removed items are the old list. */
  lemma DropdownRemoveKeepsOrder(state: seq<Item>, data: Item)
    ensures Subsequence(DropdownReduce(state, DropdownAction(REMOVE, data)), state)
    ensures multiset(DropdownReduce(state, DropdownAction(REMOVE, data)) + Filter(SameValue(data.value), state))
         == multiset(state)
  {
    FilterIsSubsequence(OtherValue(data.value), state);
    FilterComplementMultiset(OtherValue(data.value), SameValue(data.value), state);
  }

  /** Removing a value right after adding an item with that value gives the same list
      as removing it without the addition. */
  lemma AddThenRemove(state: seq<Item>, added: Item, removed: Item)
    requires added.value == removed.value
    ensures DropdownReduce(DropdownReduce(state, DropdownAction(ADD, added)), DropdownAction(REMOVE, removed))
         == DropdownReduce(state, DropdownAction(REMOVE, removed))
  {
    var p := OtherValue(removed.value);
    FilterAppend(p, state, [added]);
    assert [added][1..] == [];
  }

  // ---------------------------------------------------------------------
  // The initial list of CategoricalTemplateTextInputs
  // ---------------------------------------------------------------------

  datatype InputType =
    | SubstituteUserOutcome
    | AddedOutcome
    | UserDescriptionOutcome
    | UserDescriptionDropdownOutcome
    | OtherInputType(name: string)

  /** The fields of a template input the outcome list reads. */
  datatype TemplateInput = TemplateInput(inputType: InputType, placeholder: string, userInput: Option<string>)

  /** The inputs that contribute an outcome. */
  predicate IsOutcomeInput(t: TemplateInput)
  {
    !t.inputType.OtherInputType?
  }

  /** The fixed row of one outcome input. `substitute` stands for `substituteUserOutcome`,
      which is not part of this model. The `return null` fallback of the source is
      unreachable after the filter, hence the precondition. */
  function OutcomeItem(t: TemplateInput, inputs: seq<TemplateInput>,
                       substitute: (TemplateInput, seq<TemplateInput>) -> string): (r: Item)
    requires IsOutcomeInput(t)
    ensures !r.editable
    ensures t.inputType == AddedOutcome ==> r.value == t.placeholder
    ensures t.inputType == SubstituteUserOutcome ==> r.value == substitute(t, inputs)
    ensures (t.inputType == UserDescriptionOutcome || t.inputType == UserDescriptionDropdownOutcome) ==>
      r.value == (if Truthy(t.userInput) then t.userInput.value else t.placeholder)
  {
    if t.inputType == SubstituteUserOutcome then Item(substitute(t, inputs), false)
    else if t.inputType == AddedOutcome then Item(t.placeholder, false)
    else Item(if Truthy(t.userInput) then t.userInput.value else t.placeholder, false)
  }

  /** The first stage: the outcome inputs in order, each as a fixed row. */
  function TemplateOutcomes(inputs: seq<TemplateInput>,
                            substitute: (TemplateInput, seq<TemplateInput>) -> string): (r: seq<Item>)
    ensures |r| == |Filter(IsOutcomeInput, inputs)|
    ensures forall i :: 0 <= i < |r| ==> r[i] == OutcomeItem(Filter(IsOutcomeInput, inputs)[i], inputs, substitute)
    ensures forall i :: 0 <= i < |r| ==> !r[i].editable
  {
    var f := Filter(IsOutcomeInput, inputs);
    seq(|f|, i requires 0 <= i < |f| => OutcomeItem(f[i], inputs, substitute))
  }

  /** The filter `option => option.value === v`. */
  function SameValue(v: string): Item -> bool
  {
    (item: Item) => item.value == v
  }

  predicate HasValue(items: seq<Item>, v: string)
  {
    exists i :: 0 <= i < |items| && items[i].value == v
  }

  /** The source tests presence by the length of a filter. */
  lemma NoMatchIffAbsent(items: seq<Item>, v: string)
    ensures |Filter(SameValue(v), items)| == 0 <==> !HasValue(items, v)
  {
    var f := Filter(SameValue(v), items);
    if HasValue(items, v) {
      var i :| 0 <= i < |items| && items[i].value == v;
      assert SameValue(v)(items[i]);
      assert items[i] in f;
    }
    if |f| > 0 {
      assert f[0] in items && SameValue(v)(f[0]);
      var i :| 0 <= i < |items| && items[i] == f[0];
      assert items[i].value == v;
    }
  }

  /** The second stage, `outcomes.forEach`: each outcome no row carries yet is appended
      as an editable row. */
  function AppendMissing(items: seq<Item>, outcomes: seq<string>): seq<Item>
  {
    if outcomes == [] then items
    else
      var l := AppendMissing(items, outcomes[..|outcomes| - 1]);
      var o := outcomes[|outcomes| - 1];
      if |Filter(SameValue(o), l)| == 0 then l + [Item(o, true)] else l
  }

  /** The third stage, the `while` loop: blank editable rows up to `minNum`. */
  function Padded(items: seq<Item>, minNum: int): (r: seq<Item>)
    ensures |r| == if |items| < minNum then minNum else |items|
    ensures r[..|items|] == items
    ensures forall i :: |items| <= i < |r| ==> r[i] == Blank
  {
    if |items| < minNum then items + seq(minNum - |items|, _ => Blank) else items
  }

  /** The second stage keeps the rows it starts from and only appends editable rows
      carrying one of the outcomes. */
  lemma {:induction false} AppendMissingExtends(items: seq<Item>, outcomes: seq<string>)
    ensures var r := AppendMissing(items, outcomes);
      |items| <= |r| && r[..|items|] == items &&
      forall i :: |items| <= i < |r| ==> r[i].editable && r[i].value in outcomes
    decreases |outcomes|
  {
    if outcomes != [] {
      var init := outcomes[..|outcomes| - 1];
      AppendMissingExtends(items, init);
      var l := AppendMissing(items, init);
      var r := AppendMissing(items, outcomes);
      forall i | |items| <= i < |r|
        ensures r[i].editable && r[i].value in outcomes
      {
        if i < |l| {
          assert r[i] == l[i];
          assert l[i].value in init;
        }
      }
    }
  }

  /** Afterwards every outcome is carried by some row. */
  lemma {:induction false} AppendMissingCovers(items: seq<Item>, outcomes: seq<string>)
    ensures forall j :: 0 <= j < |outcomes| ==> HasValue(AppendMissing(items, outcomes), outcomes[j])
    decreases |outcomes|
  {
    if outcomes != [] {
      var init := outcomes[..|outcomes| - 1];
      var o := outcomes[|outcomes| - 1];
      AppendMissingCovers(items, init);
      var l := AppendMissing(items, init);
      var r := AppendMissing(items, outcomes);
      NoMatchIffAbsent(l, o);
      forall j | 0 <= j < |outcomes|
        ensures HasValue(r, outcomes[j])
      {
        if j < |outcomes| - 1 {
          assert outcomes[j] == init[j];
          var i :| 0 <= i < |l| && l[i].value == outcomes[j];
          assert r[i] == l[i];
        } else if !HasValue(l, o) {
          assert r[|l|].value == o;
        }
      }
    }
  }

  /** Every appended row's value occurs in no other row: an outcome is added at most once,
      and never when a fixed row already carries it. */
  lemma {:induction false} AppendMissingAddsOnce(items: seq<Item>, outcomes: seq<string>)
    ensures var r := AppendMissing(items, outcomes);
      forall i, j :: |items| <= i < |r| && 0 <= j < |r| && i != j ==> r[i].value != r[j].value
    decreases |outcomes|
  {
    if outcomes != [] {
      var init := outcomes[..|outcomes| - 1];
      var o := outcomes[|outcomes| - 1];
      AppendMissingAddsOnce(items, init);
      AppendMissingExtends(items, init);
      var l := AppendMissing(items, init);
      NoMatchIffAbsent(l, o);
      if !HasValue(l, o) {
        var r := l + [Item(o, true)];
        assert AppendMissing(items, outcomes) == r;
        forall i, j | |items| <= i < |r| && 0 <= j < |r| && i != j
          ensures r[i].value != r[j].value
        {
          if i == |l| {
            assert r[j] == l[j];
          } else if j == |l| {
            assert r[i] == l[i];
          } else {
            assert r[i] == l[i] && r[j] == l[j];
          }
        }
      }
    }
  }

  /** The initial list of `CategoricalTemplateTextInputs`: the fixed template rows,
      then the missing outcomes, then blank rows up to `minNum`
      (`CATEGORICAL_OUTCOMES_MIN_NUM`, a constant not part of this model). */
  method InitialOutcomeList(inputs: seq<TemplateInput>, outcomes: seq<string>,
                            substitute: (TemplateInput, seq<TemplateInput>) -> string,
                            minNum: int) returns (list: seq<Item>)
    ensures list == Padded(AppendMissing(TemplateOutcomes(inputs, substitute), outcomes), minNum)
  {
    list := TemplateOutcomes(inputs, substitute);
    ghost var template := list;
    var i := 0;
    while i < |outcomes|
      invariant 0 <= i <= |outcomes|
      invariant list == AppendMissing(template, outcomes[..i])
    {
      var outcome := outcomes[i];
      assert outcomes[..i + 1][..i] == outcomes[..i];
      if |Filter(SameValue(outcome), list)| == 0 {
        list := list + [Item(outcome, true)];
      }
      i := i + 1;
    }
    assert outcomes[..|outcomes|] == outcomes;
    ghost var added := list;
    while |list| < minNum
      invariant |added| <= |list|
      invariant |list| > |added| ==> |list| <= minNum
      invariant list[..|added|] == added
      invariant forall k :: |added| <= k < |list| ==> list[k] == Blank
      decreases minNum - |list|
    {
      list := list + [Blank];
    }
    assert list == Padded(added, minNum);
  }

  /** What the initial list holds: the template rows first and fixed, every outcome
      present, every later row editable, at least `minNum` rows. */
  lemma InitialListMeaning(inputs: seq<TemplateInput>, outcomes: seq<string>,
                           substitute: (TemplateInput, seq<TemplateInput>) -> string, minNum: int)
    ensures var t := TemplateOutcomes(inputs, substitute);
      var r := Padded(AppendMissing(t, outcomes), minNum);
      |r| >= minNum && |t| <= |r| && r[..|t|] == t &&
      (forall i :: 0 <= i < |t| ==> !r[i].editable) &&
      (forall i :: |t| <= i < |r| ==> r[i].editable) &&
      (forall j :: 0 <= j < |outcomes| ==> HasValue(r, outcomes[j]))
  {
    var t := TemplateOutcomes(inputs, substitute);
    var a := AppendMissing(t, outcomes);
    var r := Padded(a, minNum);
    AppendMissingExtends(t, outcomes);
    AppendMissingCovers(t, outcomes);
    assert r[..|a|] == a;
    assert r[..|t|] == a[..|t|];
    forall i | 0 <= i < |t|
      ensures !r[i].editable
    {
      assert r[i] == a[i] == t[i];
    }
    forall i | |t| <= i < |r|
      ensures r[i].editable
    {
      if i < |a| {
        assert r[i] == a[i];
      }
    }
    forall j | 0 <= j < |outcomes|
      ensures HasValue(r, outcomes[j])
    {
      var i :| 0 <= i < |a| && a[i].value == outcomes[j];
      assert r[i] == a[i];
    }
  }

  // ---------------------------------------------------------------------
  // TemplateBanners
  // ---------------------------------------------------------------------

  /** The `reduce` over the categories: a category whose lowercase form is a key of
      `texts` (`TemplateBannerText`, a constant not part of this model) replaces the
      text found so far; `null` to start with. */
  function BannerReduce(categories: seq<string>, texts: map<string, string>): Option<string>
  {
    if categories == [] then None
    else
      var c := ToLower(categories[|categories| - 1]);
      if c in texts then Some(texts[c])
      else BannerReduce(categories[..|categories| - 1], texts)
  }

  /** The banner `TemplateBanners` shows; a falsy text shows none. */
  function TemplateBanner(categories: seq<string>, texts: map<string, string>): (r: Option<string>)
    ensures r.Some? ==> r == BannerReduce(categories, texts) && r.value != ""
    ensures !Truthy(BannerReduce(categories, texts)) ==> r.None?
  {
    var text := BannerReduce(categories, texts);
    if Truthy(text) then text else None
  }

  /** Category `i` is the last one with a banner text. */
  predicate LastMatch(categories: seq<string>, texts: map<string, string>, i: int)
  {
    0 <= i < |categories| && ToLower(categories[i]) in texts &&
    forall j :: i < j < |categories| ==> ToLower(categories[j]) !in texts
  }

  /** The text found is that of the last matching category, and none is found
      exactly when no category matches. */
  lemma {:induction false} BannerIsLastMatch(categories: seq<string>, texts: map<string, string>)
    ensures BannerReduce(categories, texts).None? <==>
      forall i :: 0 <= i < |categories| ==> ToLower(categories[i]) !in texts
    ensures forall i :: LastMatch(categories, texts, i) ==>
      BannerReduce(categories, texts) == Some(texts[ToLower(categories[i])])
    decreases |categories|
  {
    if categories != [] {
      var n := |categories| - 1;
      var init := categories[..n];
      BannerIsLastMatch(init, texts);
      if ToLower(categories[n]) !in texts {
        forall i | LastMatch(categories, texts, i)
          ensures LastMatch(init, texts, i)
        {
          assert i != n;
          assert init[i] == categories[i];
          forall j | i < j < |init|
            ensures ToLower(init[j]) !in texts
          {
            assert init[j] == categories[j];
          }
        }
        if BannerReduce(categories, texts).None? {
          forall i | 0 <= i < |categories|
            ensures ToLower(categories[i]) !in texts
          {
            if i < n {
              assert init[i] == categories[i];
            }
          }
        } else {
          var i :| 0 <= i < |init| && ToLower(init[i]) in texts;
          assert init[i] == categories[i];
        }
      } else {
        forall i | LastMatch(categories, texts, i)
          ensures i == n
        {
        }
      }
    }
  }

  // ---------------------------------------------------------------------
  // DateTimeSelector time defaults
  // ---------------------------------------------------------------------

  /** Hour, minute and meridiem, each possibly missing. */
  datatype TimeFields = TimeFields(hour: Option<string>, minute: Option<string>, meridiem: Option<string>)

  /** The `timeSelector` object built on focus: a field is set, to `'12'`, `'00'` or
      `'AM'`, exactly when the shown field is falsy. */
  function FocusDefaults(shown: TimeFields): (r: TimeFields)
    ensures r.hour.Some? <==> !Truthy(shown.hour)
    ensures r.minute.Some? <==> !Truthy(shown.minute)
    ensures r.meridiem.Some? <==> !Truthy(shown.meridiem)
  {
    TimeFields(
      if Truthy(shown.hour) then None else Some("12"),
      if Truthy(shown.minute) then None else Some("00"),
      if Truthy(shown.meridiem) then None else Some("AM"))
  }

  /** The `'timeSelector'` case of the receiving handler: each truthy field replaces the
      stored one. */
  function ApplyTimeSelector(state: TimeFields, value: TimeFields): (r: TimeFields)
    ensures Truthy(value.hour) ==> r.hour == value.hour
    ensures !Truthy(value.hour) ==> r.hour == state.hour
    ensures Truthy(value.minute) ==> r.minute == value.minute
    ensures !Truthy(value.minute) ==> r.minute == state.minute
    ensures Truthy(value.meridiem) ==> r.meridiem == value.meridiem
    ensures !Truthy(value.meridiem) ==> r.meridiem == state.meridiem
  {
    TimeFields(
      if Truthy(value.hour) then value.hour else state.hour,
      if Truthy(value.minute) then value.minute else state.minute,
      if Truthy(value.meridiem) then value.meridiem else state.meridiem)
  }

  /** Focusing fills exactly the missing fields with their defaults and keeps the others,
      so all three are set afterwards. */
  lemma FocusFillsOnlyMissing(state: TimeFields)
    ensures var r := ApplyTimeSelector(state, FocusDefaults(state));
      Truthy(r.hour) && Truthy(r.minute) && Truthy(r.meridiem) &&
      (Truthy(state.hour) ==> r.hour == state.hour) &&
      (!Truthy(state.hour) ==> r.hour == Some("12")) &&
      (Truthy(state.minute) ==> r.minute == state.minute) &&
      (!Truthy(state.minute) ==> r.minute == Some("00")) &&
      (Truthy(state.meridiem) ==> r.meridiem == state.meridiem) &&
      (!Truthy(state.meridiem) ==> r.meridiem == Some("AM"))
  {
  }
}
