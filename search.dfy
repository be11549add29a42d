/** The search header of the web client: a text input whose value and debounce flag are
    component state, an effect that runs whenever the value changes, and the handlers
    wired to the input. The component's optional callbacks are recorded as calls. */
module Search {

  /** A call the component makes to its parent's callbacks. */
  datatype Call = OnSearch(query: string) | OnClear

  /** The calls one run of the value effect makes. */
  function EffectCalls(value: string, debounce: bool, hasOnClear: bool): (r: seq<Call>)
    ensures |r| <= 1
    ensures r != [] <==> value == "" && debounce && hasOnClear
    ensures forall i :: 0 <= i < |r| ==> r[i] == OnClear
  {
    if value == "" && debounce && hasOnClear then [OnClear] else []
  }

  /** The calls a search request makes: `onSearch` with the current value, unless the
      value is empty or no `onSearch` was given. */
  function SearchCalls(value: string, hasOnSearch: bool): (r: seq<Call>)
    ensures |r| <= 1
    ensures r != [] <==> value != "" && hasOnSearch
    ensures forall i :: 0 <= i < |r| ==> r[i] == OnSearch(value)
  {
    if value != "" && hasOnSearch then [OnSearch(value)] else []
  }

  /** No search request ever passes an empty query. */
  ghost predicate NoEmptySearch(calls: seq<Call>)
  {
    forall i :: 0 <= i < |calls| && calls[i].OnSearch? ==> calls[i].query != ""
  }

  lemma NoEmptySearchAppend(a: seq<Call>, b: seq<Call>)
    requires NoEmptySearch(a) && NoEmptySearch(b)
    ensures NoEmptySearch(a + b)
  {
    forall i | 0 <= i < |a + b| && (a + b)[i].OnSearch?
      ensures (a + b)[i].query != ""
    {
      if i >= |a| {
        assert (a + b)[i] == b[i - |a|];
      }
    }
  }

  class SearchBox {
    /** Whether the parent passed `onSearch` and `onClear`. */
    const hasOnSearch: bool
    const hasOnClear: bool
    var value: string
    var debounce: bool
    var calls: seq<Call>

    /** After mounting, the debounce flag is set and no query passed on was empty. */
    ghost predicate Valid()
      reads this
    {
      debounce && NoEmptySearch(calls)
    }

    /** The first render (empty value, debounce unset) followed by the mount run of the
        value effect: the empty value finds debounce unset, so the effect only sets it,
        and `onClear` is not called on mount. Setting debounce does not change the value,
        so the effect does not run again. */
    constructor (hasOnSearch: bool, hasOnClear: bool)
      ensures this.hasOnSearch == hasOnSearch && this.hasOnClear == hasOnClear
      ensures value == "" && debounce && calls == []
      ensures Valid()
    {
      this.hasOnSearch := hasOnSearch;
      this.hasOnClear := hasOnClear;
      value := "";
      debounce := false;
      calls := [];
      new;
      ValueEffect();
    }

    /** One run of the effect on `[value]`: on an empty value, call `onClear` when debounce
        is set, otherwise set debounce. */
    method ValueEffect()
      modifies this`debounce, this`calls
      ensures calls == old(calls) + EffectCalls(value, old(debounce), hasOnClear)
      ensures debounce == (old(debounce) || value == "")
    {
      if value == "" {
        if debounce && hasOnClear {
          calls := calls + [OnClear];
        }
        if !debounce {
          debounce := true;
        }
      }
    }

    /** `setValue`: the effect runs after the re-render only when the value changed. */
    method SetValue(v: string)
      requires Valid()
      modifies this`value, this`debounce, this`calls
      ensures value == v && debounce
      ensures calls == old(calls) + (if v != old(value) then EffectCalls(v, true, hasOnClear) else [])
      ensures Valid()
    {
      var changed := v != value;
      value := v;
      if changed {
        ValueEffect();
      }
    }

    /** The input's change handler. Clearing the input by typing calls `onClear` just as
        the clear button does. */
    method OnChangeHandler(text: string)
      requires Valid()
      modifies this`value, this`debounce, this`calls
      ensures value == text
      ensures calls == old(calls) + (if old(value) != "" && text == "" && hasOnClear then [OnClear] else [])
      ensures Valid()
    {
      SetValue(text);
    }

    /** The clear button: `onClear` is called exactly when a non-empty value is cleared. */
    method ClearHandler()
      requires Valid()
      modifies this`value, this`debounce, this`calls
      ensures value == ""
      ensures calls == old(calls) + (if old(value) != "" && hasOnClear then [OnClear] else [])
      ensures Valid()
    {
      SetValue("");
    }

    method SearchHandler()
      requires Valid()
      modifies this`calls
      ensures calls == old(calls) + SearchCalls(value, hasOnSearch)
      ensures Valid()
    {
      if value != "" && hasOnSearch {
        NoEmptySearchAppend(calls, [OnSearch(value)]);
        calls := calls + [OnSearch(value)];
      }
    }

    /** Only the Enter key requests a search. */
    method HandleKeyDown(key: string)
      requires Valid()
      modifies this`calls
      ensures calls == old(calls) + (if key == "Enter" then SearchCalls(value, hasOnSearch) else [])
      ensures Valid()
    {
      if key == "Enter" {
        SearchHandler();
      }
    }
  }
}
