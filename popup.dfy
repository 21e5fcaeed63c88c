/**
 * The autocomplete popup wired to a text input by `addAutoComplete`: a
 * searchbox under the field that lists suggestions, opened by keystrokes and
 * clicks on the field and closed by Escape, blur to another element, any
 * click on the page, or choosing an item.
 */
module Popup {
  import opened Wrappers
  import opened Suggestions
  import opened Page

  /** The key name the handlers compare against. */
  const EscapeKey: string := "Escape"

  /** Id of the container created under field `id` (`createSearchBox`). */
  function SearchBoxId(id: string): (r: string)
    ensures |r| == |id| + 10 && id <= r
  {
    id + "_searchbox"
  }

  /** Id of the list inside the container (`createList`). */
  function SearchListId(id: string): (r: string)
    ensures |r| == |id| + 11 && id <= r
  {
    id + "_searchlist"
  }

  /** The id the outside-click handler looks up: it lacks the underscore. */
  function OutsideClickLookupId(id: string): (r: string)
    ensures |r| == |id| + 9 && id <= r
  {
    id + "searchbox"
  }

  /** Different fields get different container and list ids. */
  lemma SearchIdsInjective(a: string, b: string)
    ensures SearchBoxId(a) == SearchBoxId(b) ==> a == b
    ensures SearchListId(a) == SearchListId(b) ==> a == b
  {
    if SearchBoxId(a) == SearchBoxId(b) {
      assert a == SearchBoxId(a)[..|a|] && b == SearchBoxId(b)[..|b|];
    }
    if SearchListId(a) == SearchListId(b) {
      assert a == SearchListId(a)[..|a|] && b == SearchListId(b)[..|b|];
    }
  }

  /**
   * A field's own ids are pairwise distinct, and the id looked up on a page
   * click is none of them.
   */
  lemma OwnIdsDistinct(id: string)
    ensures SearchBoxId(id) != id && SearchListId(id) != id
    ensures SearchBoxId(id) != SearchListId(id)
    ensures OutsideClickLookupId(id) !in {id, SearchBoxId(id), SearchListId(id)}
  {
  }

  /** Elements an event can target: the field, the popup's parts, or anything else on the page. */
  datatype Element = InputElement | SearchBoxElement | SearchListElement | ListItemElement(text: string) | OtherElement

  class AutoComplete {
    /** The decorated input. */
    const field: InputField
    /** What `getdata()` returns: the candidates, fixed for the page load. */
    const data: seq<string>
    /** The searchbox under the field: None when absent, else the texts listed in it. */
    var searchbox: Option<seq<string>>
    /** The field text the open searchbox was built for. */
    ghost var query: string

    /** An open searchbox lists the suggestions for the non-empty text it was opened with. */
    ghost predicate Valid()
      reads this
    {
      searchbox.Some? ==> query != [] && searchbox.value == Filter(data, query)
    }

    /** `addAutoComplete`: registers the handlers; no searchbox exists yet. */
    constructor (field: InputField, data: seq<string>)
      ensures this.field == field && this.data == data
      ensures searchbox == None && Valid()
    {
      this.field := field;
      this.data := data;
      searchbox := None;
      query := [];
    }

    /** `document.getElementById` restricted to this field's elements. */
    function ElementById(elementId: string): (e: Option<Element>)
      reads this
      ensures e == Some(InputElement) <==> elementId == field.id
      ensures e == Some(SearchBoxElement) <==> searchbox.Some? && elementId == SearchBoxId(field.id)
      ensures e == Some(SearchListElement) <==> searchbox.Some? && elementId == SearchListId(field.id)
      ensures e.Some? ==> e.value in {InputElement, SearchBoxElement, SearchListElement}
    {
      OwnIdsDistinct(field.id);
      if elementId == field.id then Some(InputElement)
      else if searchbox.Some? && elementId == SearchBoxId(field.id) then Some(SearchBoxElement)
      else if searchbox.Some? && elementId == SearchListId(field.id) then Some(SearchListElement)
      else None
    }

    /** The lookup by the container's id finds it exactly when it is open. */
    lemma SearchBoxLookup()
      ensures ElementById(SearchBoxId(field.id)).Some? <==> searchbox.Some?
    {
    }

    /** What an open searchbox lists: at most five data items, in data order, each containing its query. */
    lemma ShownSuggestions()
      requires Valid() && searchbox.Some?
      ensures |searchbox.value| <= MaxSearchListSize
      ensures IsSubsequence(searchbox.value, data)
      ensures forall s :: s in searchbox.value ==> s in data && Includes(s, query)
    {
      FilterIsSubsequence(data, query);
    }

    /** `deleteSearchBox`: removes the searchbox if present, otherwise does nothing. */
    method DeleteSearchBox()
      modifies this
      ensures searchbox == None && query == old(query)
      ensures Valid()
    {
      SearchBoxLookup();
      if ElementById(SearchBoxId(field.id)) != None {
        searchbox := None;
      }
    }

    /**
     * `openAutoComplete`, the keyup and click handler of the field. `key` is
     * the event's key, None for a click. An open searchbox is never rebuilt:
     * the list filled for it is not attached.
     */
    method OpenAutoComplete(key: Option<string>)
      requires Valid()
      modifies this
      ensures Valid()
      ensures key == Some(EscapeKey) ==> searchbox == old(searchbox) && query == old(query)
      ensures key != Some(EscapeKey) && field.value == [] ==> searchbox == None
      ensures key != Some(EscapeKey) && field.value != [] && old(searchbox) == None ==>
                searchbox == Some(Filter(data, field.value)) && query == field.value
      ensures key != Some(EscapeKey) && field.value != [] && old(searchbox) != None ==>
                searchbox == old(searchbox) && query == old(query)
    {
      if key == Some(EscapeKey) {
        return;
      }
      var currentContent := field.value;
      if |currentContent| == 0 {
        DeleteSearchBox();
      } else {
        var list: seq<string> := [];
        SearchBoxLookup();
        var created := ElementById(SearchBoxId(field.id)) == None;
        // The new container holds this list object, so it shows what is added below.
        list := AddFilteredData(list, data, currentContent);
        if created {
          searchbox := Some(list);
          query := currentContent;
        }
      }
    }

    /** `considerRemovingSearchBoxOnPressingEscape`, the page's keydown handler. */
    method OnKeyDown(key: string)
      requires Valid()
      modifies this
      ensures Valid() && query == old(query)
      ensures searchbox == if key == EscapeKey then None else old(searchbox)
    {
      if key == EscapeKey {
        DeleteSearchBox();
      }
    }

    /**
     * `handleBlurEvent`: losing focus to another element closes the
     * searchbox; losing it to nothing (a null relatedTarget) changes nothing.
     */
    method OnBlur(relatedTarget: Option<Element>)
      requires Valid()
      modifies this
      ensures Valid() && query == old(query)
      ensures searchbox == if relatedTarget == None then old(searchbox) else None
    {
      if relatedTarget == None {
        return;
      } else {
        DeleteSearchBox();
      }
    }

    /**
     * `considerKillingThisModalIfOutsideClick`, the page's click handler. It
     * compares the target with the element whose id is `id + "searchbox"`;
     * no element has that id, so every click closes the searchbox, a click
     * on the searchbox itself included.
     */
    method OnDocumentClick(target: Element)
      requires Valid()
      modifies this
      ensures Valid() && query == old(query)
      ensures searchbox == None
    {
      OwnIdsDistinct(field.id);
      if Some(target) != ElementById(OutsideClickLookupId(field.id)) {
        DeleteSearchBox();
      }
    }

    /**
     * The click handler `addItemClickBehavior` puts on each listed item: the
     * field takes the item's text and the searchbox is removed. Only items of
     * the open searchbox are on the page to be clicked, so the chosen text is
     * a data item containing the text the box was opened with.
     */
    method OnItemClick(text: string)
      requires Valid()
      requires searchbox.Some? && text in searchbox.value
      modifies this, field
      ensures Valid() && query == old(query)
      ensures field.value == text && searchbox == None
      ensures field.placeholder == old(field.placeholder) && field.disabled == old(field.disabled)
      ensures field.value in data && Includes(field.value, old(query))
    {
      ShownSuggestions();
      field.value := text;
      DeleteSearchBox();
    }
  }
}
