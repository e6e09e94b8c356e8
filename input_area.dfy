/** The search form: the list of subjects being assembled, the text field,
    and the list of suggested searches offered below it. */
module InputArea {
  import opened Types
  import opened Seqs
  import Strings

  /** `items.filter((_, i) => i !== index)`: the element at `index` is
      removed when there is one; any other index leaves the list as it is. */
  function RemoveAt<T>(s: seq<T>, index: int): (r: seq<T>)
    ensures 0 <= index < |s| ==> r == s[..index] + s[index + 1..]
    ensures !(0 <= index < |s|) ==> r == s
  {
    if s == [] then []
    else if index == 0 then s[1..]
    else
      assert s == [s[0]] + s[1..];
      [s[0]] + RemoveAt(s[1..], index - 1)
  }

  /** Removing drops exactly one occurrence of the removed subject. */
  lemma {:induction false} RemoveAtCount<T>(s: seq<T>, index: nat)
    requires index < |s|
    ensures multiset(RemoveAt(s, index)) == multiset(s) - multiset{s[index]}
  {
    var before, after := s[..index], s[index + 1..];
    assert s == before + ([s[index]] + after);
    calc {
      multiset(s);
      multiset(before) + multiset([s[index]] + after);
      multiset(before) + (multiset{s[index]} + multiset(after));
    }
    assert RemoveAt(s, index) == before + after;
  }

  /** A list without repeats stays without repeats, and the removed subject
      is gone from it. */
  lemma {:induction false} RemoveAtDistinct<T>(s: seq<T>, index: nat)
    requires index < |s| && NoDuplicates(s)
    ensures NoDuplicates(RemoveAt(s, index))
    ensures s[index] !in RemoveAt(s, index)
  {
    var r := s[..index] + s[index + 1..];
    assert forall k :: 0 <= k < index ==> r[k] == s[k];
    assert forall k :: index <= k < |r| ==> r[k] == s[k + 1];
    assert RemoveAt(s, index) == r;
  }

  // ---------------------------------------------------------------------
  // Suggestions

  /** `[...item].sort().join('|').toLowerCase()`: the text that decides
      whether two suggested searches are the same; a one-subject search is
      keyed by its lowercased subject. */
  function SuggestionKey(item: seq<string>): (key: string)
    ensures item == [] ==> key == ""
    ensures |item| == 1 ==> key == Strings.Lower(item[0])
  {
    assert |item| == 1 ==> item == [item[0]] && Strings.Sort(item) == item;
    Strings.Lower(Strings.Join(Strings.Sort(item), "|"))
  }

  /** The key ignores the order of the subjects. */
  lemma SuggestionKeyOrderInsensitive(a: seq<string>, b: seq<string>)
    requires multiset(a) == multiset(b)
    ensures SuggestionKey(a) == SuggestionKey(b)
  {
    Strings.SortEqualIff(a, b);
  }

  /** For a one-subject search the key ignores letter case. */
  lemma SingleSubjectKeyIgnoresCase(a: string, b: string)
    requires Strings.Lower(a) == Strings.Lower(b)
    ensures SuggestionKey([a]) == SuggestionKey([b])
  {
  }

  /** With several subjects the key is not case-insensitive: the subjects are
      sorted by character code before they are lowercased, so the same two
      subjects spelt with different capitals can come out in different orders. */
  lemma MixedCaseSearchesKeyedApart()
    ensures Strings.Lower("a") == Strings.Lower("A") && Strings.Lower("B") == Strings.Lower("b")
    ensures SuggestionKey(["a", "B"]) != SuggestionKey(["A", "b"])
  {
    KeyStartsWithFirstSorted(["a", "B"], "B");
    KeyStartsWithFirstSorted(["A", "b"], "A");
  }

  /** The key of a two-subject search starts with the lowercased first
      character of the subject that sorts first. */
  lemma KeyStartsWithFirstSorted(item: seq<string>, first: string)
    requires |item| == 2 && first in item && first != ""
    requires forall x :: x in item ==> Strings.LessEq(first, x)
    ensures SuggestionKey(item)[0] == Strings.LowerChar(first[0])
  {
    var sorted := Strings.Sort(item);
    assert |multiset(sorted)| == 2;
    assert |sorted| == 2;
    assert sorted[0] in multiset(item) && sorted[1] in multiset(item);
    assert first in multiset(sorted);
    if sorted[0] != first {
      assert sorted[1] == first;
      Strings.LessEqAntisymmetric(first, sorted[0]);
    }
    assert Strings.Join(sorted, "|") == sorted[0] + "|" + sorted[1];
  }

  /** The first search of `s` whose key is `k`, if any. */
  function FirstWithKey(s: seq<seq<string>>, key: seq<string> -> string, k: string): (r: Option<seq<string>>)
    ensures r.None? <==> forall p :: 0 <= p < |s| ==> key(s[p]) != k
    ensures r.Some? ==> exists p :: 0 <= p < |s| && s[p] == r.value && key(s[p]) == k
                          && forall q :: 0 <= q < p ==> key(s[q]) != k
  {
    if s == [] then None
    else
      var n := |s| - 1;
      match FirstWithKey(s[..n], key, k)
      case Some(first) =>
        ghost var p :| 0 <= p < n && s[..n][p] == first && key(s[..n][p]) == k
                       && forall q :: 0 <= q < p ==> key(s[..n][q]) != k;
        assert s[p] == first && forall q :: 0 <= q < p ==> s[q] == s[..n][q];
        Some(first)
      case None =>
        assert forall q :: 0 <= q < n ==> s[q] == s[..n][q];
        if key(s[n]) == k then Some(s[n]) else None
  }

  /** Looking one search further changes the first search of a key only when
      the key had none before. */
  lemma FirstWithKeyExtend(all: seq<seq<string>>, key: seq<string> -> string, i: nat, k: string)
    requires i < |all|
    ensures var before := FirstWithKey(all[..i], key, k);
      FirstWithKey(all[..i + 1], key, k) ==
        if before.Some? then before else if key(all[i]) == k then Some(all[i]) else None
  {
    assert all[..i + 1][..i] == all[..i];
  }

  /** What the loop knows after scanning `all[..i]`: `seen` holds exactly the
      keys kept so far, one search per key, every scanned key is seen, and
      each kept search is the first scanned search with its key. */
  ghost predicate Scanned(all: seq<seq<string>>, key: seq<string> -> string, i: nat,
                          unique: seq<seq<string>>, seen: set<string>)
  {
    && i <= |all|
    && (forall k :: k in seen <==> exists j :: 0 <= j < |unique| && key(unique[j]) == k)
    && (forall j, l :: 0 <= j < l < |unique| ==> key(unique[j]) != key(unique[l]))
    && (forall p :: 0 <= p < i ==> key(all[p]) in seen)
    && (forall j :: 0 <= j < |unique| ==> FirstWithKey(all[..i], key, key(unique[j])) == Some(unique[j]))
  }

  /** A search with an unseen key is kept. */
  lemma ScanKeep(all: seq<seq<string>>, key: seq<string> -> string, i: nat,
                 unique: seq<seq<string>>, seen: set<string>)
    requires i < |all| && Scanned(all, key, i, unique, seen) && key(all[i]) !in seen
    ensures Scanned(all, key, i + 1, unique + [all[i]], seen + {key(all[i])})
  {
    var itemKey := key(all[i]);
    var kept := unique + [all[i]];
    forall p | 0 <= p < i ensures key(all[..i][p]) != itemKey {
      assert all[..i][p] == all[p];
    }
    FirstWithKeyExtend(all, key, i, itemKey);
    forall j | 0 <= j < |kept|
      ensures FirstWithKey(all[..i + 1], key, key(kept[j])) == Some(kept[j])
    {
      if j < |unique| {
        assert kept[j] == unique[j];
        FirstWithKeyExtend(all, key, i, key(unique[j]));
      }
    }
    assert key(kept[|unique|]) == itemKey;
    forall k ensures k in seen + {itemKey} <==> exists j :: 0 <= j < |kept| && key(kept[j]) == k {
      if k in seen {
        var j :| 0 <= j < |unique| && key(unique[j]) == k;
        assert kept[j] == unique[j];
      }
      if exists j :: 0 <= j < |kept| && key(kept[j]) == k {
        var j :| 0 <= j < |kept| && key(kept[j]) == k;
        if j < |unique| {
          assert kept[j] == unique[j];
        }
      }
    }
    forall j, l | 0 <= j < l < |kept| ensures key(kept[j]) != key(kept[l]) {
      assert kept[j] == unique[j];
      if l < |unique| {
        assert kept[l] == unique[l];
      }
    }
  }

  /** A search with a seen key is skipped. */
  lemma ScanSkip(all: seq<seq<string>>, key: seq<string> -> string, i: nat,
                 unique: seq<seq<string>>, seen: set<string>)
    requires i < |all| && Scanned(all, key, i, unique, seen) && key(all[i]) in seen
    ensures Scanned(all, key, i + 1, unique, seen)
  {
    forall j | 0 <= j < |unique|
      ensures FirstWithKey(all[..i + 1], key, key(unique[j])) == Some(unique[j])
    {
      FirstWithKeyExtend(all, key, i, key(unique[j]));
    }
  }

  /** `idx` places each kept search at a position of `all` before which no
      search has its key: the kept searches are first occurrences, listed in
      the order in which they occur. */
  ghost predicate FirstOccurrences(idx: seq<nat>, unique: seq<seq<string>>, all: seq<seq<string>>,
                                   key: seq<string> -> string)
  {
    && Embeds(idx, unique, all)
    && forall j, q :: 0 <= j < |unique| && 0 <= q < idx[j] ==> key(all[q]) != key(unique[j])
  }

  /** Keeping the search at `i`, whose key no earlier search has, extends
      the first occurrences by that position. */
  lemma FirstOccurrencesKeep(all: seq<seq<string>>, key: seq<string> -> string, i: nat, idx: seq<nat>,
                             unique: seq<seq<string>>, seen: set<string>)
    requires i < |all| && Scanned(all, key, i, unique, seen) && key(all[i]) !in seen
    requires FirstOccurrences(idx, unique, all, key) && forall k :: 0 <= k < |idx| ==> idx[k] < i
    ensures FirstOccurrences(idx + [i], unique + [all[i]], all, key)
    ensures forall k :: 0 <= k < |idx| + 1 ==> (idx + [i])[k] < i + 1
  {
    EmbedsSnoc(idx, unique, all, i);
    assert forall q :: 0 <= q < i ==> key(all[q]) in seen;
  }

  /** The loop of `displaySuggestions`, for a given key: walk the searches,
      keeping each one whose key has not been seen yet. */
  method FirstOfEachKey(all: seq<seq<string>>, key: seq<string> -> string) returns (unique: seq<seq<string>>)
    ensures IsSubsequence(unique, all)
    ensures forall j, l :: 0 <= j < l < |unique| ==> key(unique[j]) != key(unique[l])
    ensures forall x :: x in all ==> exists j :: 0 <= j < |unique| && key(unique[j]) == key(x)
    ensures forall j :: 0 <= j < |unique| ==> FirstWithKey(all, key, key(unique[j])) == Some(unique[j])
    ensures exists idx :: FirstOccurrences(idx, unique, all, key)
  {
    unique := [];
    var seen: set<string> := {};
    ghost var idx: seq<nat> := [];
    for i := 0 to |all|
      invariant FirstOccurrences(idx, unique, all, key)
      invariant forall k :: 0 <= k < |idx| ==> idx[k] < i
      invariant Scanned(all, key, i, unique, seen)
    {
      var item := all[i];
      var itemKey := key(item);
      if itemKey !in seen {
        ScanKeep(all, key, i, unique, seen);
        FirstOccurrencesKeep(all, key, i, idx, unique, seen);
        seen := seen + {itemKey};
        idx := idx + [i];
        unique := unique + [item];
      } else {
        ScanSkip(all, key, i, unique, seen);
      }
    }
    ScannedAll(all, key, unique, seen);
  }

  /** Once every search is scanned, every key is covered and each kept
      search is the first with its key. */
  lemma ScannedAll(all: seq<seq<string>>, key: seq<string> -> string, unique: seq<seq<string>>, seen: set<string>)
    requires Scanned(all, key, |all|, unique, seen)
    ensures forall x :: x in all ==> exists j :: 0 <= j < |unique| && key(unique[j]) == key(x)
    ensures forall j :: 0 <= j < |unique| ==> FirstWithKey(all, key, key(unique[j])) == Some(unique[j])
  {
    assert all[..|all|] == all;
    forall x | x in all
      ensures exists j :: 0 <= j < |unique| && key(unique[j]) == key(x)
    {
      var p :| 0 <= p < |all| && all[p] == x;
      assert key(all[p]) in seen;
    }
  }

  /** `displaySuggestions`: the recent searches followed by the sample
      searches, keeping the first search of each key. The result keeps the
      input order, holds one search per key, covers every key, and each
      entry is the first search with its key. */
  method DisplaySuggestions(recentSearches: seq<seq<string>>, samples: seq<seq<string>>)
    returns (unique: seq<seq<string>>)
    ensures IsSubsequence(unique, recentSearches + samples)
    ensures forall j, l :: 0 <= j < l < |unique| ==> SuggestionKey(unique[j]) != SuggestionKey(unique[l])
    ensures forall x :: x in recentSearches + samples ==>
              exists j :: 0 <= j < |unique| && SuggestionKey(unique[j]) == SuggestionKey(x)
    ensures forall j :: 0 <= j < |unique| ==>
              FirstWithKey(recentSearches + samples, SuggestionKey, SuggestionKey(unique[j])) == Some(unique[j])
    ensures exists idx :: FirstOccurrences(idx, unique, recentSearches + samples, SuggestionKey)
  {
    unique := FirstOfEachKey(recentSearches + samples, SuggestionKey);
  }

  // ---------------------------------------------------------------------
  // The form

  class InputAreaState {
    var items: seq<string>
    var inputValue: string

    /** The form starts with the given subjects and an empty text field. */
    constructor (defaultItems: seq<string>)
      ensures items == defaultItems && inputValue == ""
    {
      items := defaultItems;
      inputValue := "";
    }

    /** The text field's change handler. */
    method SetInputValue(value: string)
      modifies this
      ensures inputValue == value && items == old(items)
    {
      inputValue := value;
    }

    /** `addItem`: the trimmed text is appended and the field cleared when it
      is not blank and not already listed; otherwise nothing changes. The
      list stays free of repeats. */
    method AddItem()
      modifies this
      ensures var trimmed := Strings.Trim(old(inputValue));
        if trimmed != "" && trimmed !in old(items) then
          items == old(items) + [trimmed] && inputValue == ""
        else
          items == old(items) && inputValue == old(inputValue)
      ensures NoDuplicates(old(items)) ==> NoDuplicates(items)
    {
      var trimmed := Strings.Trim(inputValue);
      if trimmed != "" && trimmed !in items {
        items := items + [trimmed];
        inputValue := "";
      }
    }

    /** `handleKeyDown`: Enter on a non-blank field adds the subject; any
      other key changes nothing. */
    method HandleKeyDown(key: string)
      modifies this
      ensures var trimmed := Strings.Trim(old(inputValue));
        if key == "Enter" && trimmed != "" && trimmed !in old(items) then
          items == old(items) + [trimmed] && inputValue == ""
        else
          items == old(items) && inputValue == old(inputValue)
    {
      if key == "Enter" && Strings.Trim(inputValue) != "" {
        AddItem();
      }
    }

    /** `removeItem`: drop the subject at `index`. */
    method RemoveItem(index: int)
      modifies this
      ensures items == RemoveAt(old(items), index) && inputValue == old(inputValue)
    {
      items := RemoveAt(items, index);
    }

    /** `loadSample`: replace the subjects by a suggested search. */
    method LoadSample(sample: seq<string>)
      modifies this
      ensures items == sample && inputValue == old(inputValue)
    {
      items := sample;
    }

    /** `handleGenerate`: the subjects handed to the app, or None when the
      list is empty and nothing is requested. */
    method HandleGenerate() returns (request: Option<seq<string>>)
      ensures request.Some? <==> items != []
      ensures request.Some? ==> request.value == items
    {
      if |items| > 0 {
        request := Some(items);
      } else {
        request := None;
      }
    }
  }
}
