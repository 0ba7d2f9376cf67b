/** The sidebar's searchable drop-down: which options the search query keeps,
    which option the current value names, and the open/closed state with its
    search text. */
module SearchableSelect {
  import opened Wrappers
  import opened Text

  /** An option of the list; its `label` is called `caption` here. */
  datatype SelectOption = SelectOption(id: string, caption: string)

  /** `opt.label.toLowerCase().includes(query.toLowerCase())`. */
  predicate Keeps(query: string, opt: SelectOption) {
    Contains(ToLower(opt.caption), ToLower(query))
  }

  /** `filteredOptions`: the options the query keeps, in their original order. */
  function Filtered(options: seq<SelectOption>, query: string): (r: seq<SelectOption>)
    ensures |r| <= |options|
    ensures forall i :: 0 <= i < |r| ==> r[i] in options && Keeps(query, r[i])
    ensures forall i :: 0 <= i < |options| && Keeps(query, options[i]) ==> options[i] in r
  {
    if options == [] then []
    else if Keeps(query, options[0]) then [options[0]] + Filtered(options[1..], query)
    else Filtered(options[1..], query)
  }

  /** Filtering a concatenation filters each part and keeps them in order, so
      the kept options appear in the order the list gives them. */
  lemma {:induction false} FilteredAppend(a: seq<SelectOption>, b: seq<SelectOption>, query: string)
    ensures Filtered(a + b, query) == Filtered(a, query) + Filtered(b, query)
  {
    if a != [] {
      assert (a + b)[0] == a[0];
      assert (a + b)[1..] == a[1..] + b;
      FilteredAppend(a[1..], b, query);
      if Keeps(query, a[0]) {
        calc {
          Filtered(a + b, query);
          [a[0]] + Filtered(a[1..] + b, query);
          [a[0]] + (Filtered(a[1..], query) + Filtered(b, query));
          ([a[0]] + Filtered(a[1..], query)) + Filtered(b, query);
        }
      }
    } else {
      assert a + b == b;
    }
  }

  /** Filtering again with the same query changes nothing. */
  lemma {:induction false} FilteredIdempotent(options: seq<SelectOption>, query: string)
    ensures Filtered(Filtered(options, query), query) == Filtered(options, query)
  {
    if options != [] {
      FilteredIdempotent(options[1..], query);
      if Keeps(query, options[0]) {
        var rest := Filtered(options[1..], query);
        assert ([options[0]] + rest)[1..] == rest;
      }
    }
  }

  /** An empty query keeps every option. */
  lemma {:induction false} EmptyQueryKeepsAll(options: seq<SelectOption>)
    ensures Filtered(options, "") == options
  {
    if options != [] {
      assert StartsWith(ToLower(options[0].caption), ToLower(""));
      EmptyQueryKeepsAll(options[1..]);
    }
  }

  /** `options.find(opt => opt.id === value)`. */
  function SelectedOption(options: seq<SelectOption>, value: string): (r: Option<SelectOption>)
    ensures r.None? <==> forall i :: 0 <= i < |options| ==> options[i].id != value
    ensures r.Some? ==> exists i :: 0 <= i < |options| && options[i] == r.value && r.value.id == value
                                    && forall j :: 0 <= j < i ==> options[j].id != value
  {
    if options == [] then None
    else if options[0].id == value then Some(options[0])
    else
      var r := SelectedOption(options[1..], value);
      if r.Some? then
        var i :| 0 <= i < |options| - 1 && options[1..][i] == r.value && r.value.id == value
                 && forall j :: 0 <= j < i ==> options[1..][j].id != value;
        assert options[i + 1] == r.value;
        r
      else r
  }

  const LoadingText := "Loading..."

  /** What the trigger button shows. */
  function TriggerText(isLoading: bool, selected: Option<SelectOption>, placeholder: string): (r: string)
    ensures isLoading ==> r == LoadingText
    ensures !isLoading && selected.Some? ==> r == selected.value.caption
    ensures !isLoading && selected.None? ==> r == placeholder
  {
    if isLoading then LoadingText else if selected.Some? then selected.value.caption else placeholder
  }

  class SelectState {
    var isOpen: bool
    var searchQuery: string

    constructor ()
      ensures !isOpen && searchQuery == ""
    {
      isOpen := false;
      searchQuery := "";
    }

    /** The search input's `onChange`. */
    method SetSearchQuery(query: string)
      modifies this
      ensures searchQuery == query && isOpen == old(isOpen)
    {
      searchQuery := query;
    }

    /** `handleSelect(optionId)`: report the id, close and clear the search. */
    method HandleSelect(optionId: string) returns (reported: string)
      modifies this
      ensures reported == optionId && !isOpen && searchQuery == ""
    {
      reported := optionId;
      isOpen := false;
      searchQuery := "";
    }

    /** `handleToggle()`: nothing while disabled or loading; otherwise flip, and
        clear the search when opening. */
    method HandleToggle(disabled: bool, isLoading: bool)
      modifies this
      ensures disabled || isLoading ==> isOpen == old(isOpen) && searchQuery == old(searchQuery)
      ensures !disabled && !isLoading ==> isOpen == !old(isOpen)
      ensures !disabled && !isLoading && isOpen ==> searchQuery == ""
      ensures !disabled && !isLoading && !isOpen ==> searchQuery == old(searchQuery)
    {
      if !disabled && !isLoading {
        var wasOpen := isOpen;
        isOpen := !isOpen;
        if !wasOpen {
          searchQuery := "";
        }
      }
    }

    /** A `mousedown` anywhere in the document: the listener exists only while
        the menu is open, and a press outside the component closes the menu and
        clears the search. */
    method MouseDown(insideComponent: bool)
      modifies this
      ensures old(isOpen) && !insideComponent ==> !isOpen && searchQuery == ""
      ensures !old(isOpen) || insideComponent ==> isOpen == old(isOpen) && searchQuery == old(searchQuery)
    {
      if isOpen && !insideComponent {
        isOpen := false;
        searchQuery := "";
      }
    }
  }
}
