/**
 * `betterUserExperienceForInput`: once the data for a field has arrived,
 * lock the field, replace it by a dropdown, or wire the autocomplete popup.
 */
module Decorator {
  import opened Wrappers
  import opened Page
  import Dropdown
  import Popup

  /** Smallest item count that no longer gets a dropdown. */
  const DropdownLimit: nat := 10

  /** The three presentations a field can get. */
  datatype Presentation = LockedInput | NativeDropdown | PopupAutoComplete

  /**
   * The decision, with `received` None when `extractData` throws: the payload
   * is not JSON, is not an array, or has an entry the extractor cannot read. An array is never null, so an empty array is not locked:
   * it fails the `length > 0` test and gets the autocomplete.
   */
  function Decide(received: Option<seq<string>>): (p: Presentation)
    ensures p == LockedInput <==> received == None
    ensures p == NativeDropdown <==> received.Some? && 1 <= |received.value| <= 9
    ensures p == PopupAutoComplete <==> received.Some? && (received.value == [] || |received.value| >= 10)
  {
    match received
    case None => LockedInput
    case Some(items) => if 0 < |items| < DropdownLimit then NativeDropdown else PopupAutoComplete
  }

  /** What the page ends up with for the field. */
  datatype Decoration = FieldLocked | FieldReplaced(select: Dropdown.SelectElement) | FieldWired(controller: Popup.AutoComplete)

  /**
   * Applies the decision to the field: lock it, build the dropdown that
   * replaces it, or attach a controller whose searchbox starts closed.
   */
  method BetterUserExperienceForInput(field: InputField, received: Option<seq<string>>) returns (d: Decoration)
    modifies field
    ensures Decide(received) == LockedInput ==>
              d == FieldLocked && field.placeholder == LockedPlaceholder && field.disabled
    ensures Decide(received) == NativeDropdown ==>
              d == FieldReplaced(Dropdown.SelectElement(field.id, Dropdown.NameAttribute(field.name),
                                                        Dropdown.DropdownOptions(received.value)))
    ensures Decide(received) == PopupAutoComplete ==>
              d.FieldWired? && fresh(d.controller) && d.controller.field == field &&
              d.controller.data == received.value && d.controller.searchbox == None && d.controller.Valid()
    ensures field.value == old(field.value)
    ensures Decide(received) != LockedInput ==>
              field.placeholder == old(field.placeholder) && field.disabled == old(field.disabled)
  {
    if received == None {
      field.LockInput();
      d := FieldLocked;
    } else if 0 < |received.value| < DropdownLimit {
      var select := Dropdown.AddDropdown(field, received.value);
      d := FieldReplaced(select);
    } else {
      var controller := new Popup.AutoComplete(field, received.value);
      d := FieldWired(controller);
    }
  }
}
