/**
 * The native dropdown that replaces a text input when the data is small: one
 * option per item, then a hidden "Choose here" placeholder that starts selected.
 */
module Dropdown {
  import opened Wrappers
  import opened Page

  /** Text of the placeholder option appended after the items. */
  const DefaultOptionText: string := "Choose here"

  /**
   * An `<option>`. `value` is the value attribute, None when it is not set;
   * `selected`, `disabled` and `hidden` are the boolean attributes.
   */
  datatype OptionElement = OptionElement(value: Option<string>, text: string, selected: bool, disabled: bool, hidden: bool)

  /** A `<select>` with its id, its name attribute and its options in document order. */
  datatype SelectElement = SelectElement(id: string, name: string, options: seq<OptionElement>)

  /** The option built for one item: value and text both the item. */
  function ItemOption(item: string): OptionElement
  {
    OptionElement(Some(item), item, false, false, false)
  }

  /** The placeholder option: no value attribute, selected, disabled and hidden. */
  const DefaultOption: OptionElement := OptionElement(None, DefaultOptionText, true, true, true)

  /** The options `addDropdown` appends, in order. */
  function DropdownOptions(items: seq<string>): (options: seq<OptionElement>)
    ensures |options| == |items| + 1 && options[|items|] == DefaultOption
    ensures forall k :: 0 <= k < |items| ==> options[k].value == Some(items[k]) && options[k].text == items[k]
  {
    seq(|items|, k requires 0 <= k < |items| => ItemOption(items[k])) + [DefaultOption]
  }

  /**
   * `setAttribute("name", nameOfElement)`: a null name is converted to the
   * string "null".
   */
  function NameAttribute(name: Option<string>): (attribute: string)
    ensures name.Some? ==> attribute == name.value
    ensures name.None? ==> attribute == "null"
  {
    match name
    case Some(n) => n
    case None => "null"
  }

  /** The value a form submits for an option: its value attribute, or else its text. */
  function SubmittedValue(o: OptionElement): string
  {
    match o.value
    case Some(v) => v
    case None => o.text
  }

  /** The values a user can pick, in order: those of the options that are not disabled. */
  function Choices(options: seq<OptionElement>): seq<string>
  {
    if options == [] then []
    else (if options[0].disabled then [] else [SubmittedValue(options[0])]) + Choices(options[1..])
  }

  /** Options whose k-th entry is the item option for items[k] offer exactly the items. */
  lemma {:induction false} ItemOptionsChoices(options: seq<OptionElement>, items: seq<string>)
    requires |options| == |items|
    requires forall k :: 0 <= k < |items| ==> options[k] == ItemOption(items[k])
    ensures Choices(options) == items
    decreases |items|
  {
    if items != [] {
      ItemOptionsChoices(options[1..], items[1..]);
      assert items == [items[0]] + items[1..];
    }
  }

  /** Disabled options offer nothing, so trailing ones leave the choices unchanged. */
  lemma {:induction false} ChoicesDropsDisabledTail(options: seq<OptionElement>, last: OptionElement)
    requires last.disabled
    ensures Choices(options + [last]) == Choices(options)
    decreases |options|
  {
    if options == [] {
      assert Choices([last]) == [] + Choices([]);
    } else {
      ChoicesDropsDisabledTail(options[1..], last);
      assert (options + [last])[1..] == options[1..] + [last];
    }
  }

  /**
   * The dropdown offers exactly the items, in the given order: the placeholder
   * cannot be picked.
   */
  lemma DropdownOffersItems(items: seq<string>)
    ensures Choices(DropdownOptions(items)) == items
  {
    var itemOptions := seq(|items|, k requires 0 <= k < |items| => ItemOption(items[k]));
    ChoicesDropsDisabledTail(itemOptions, DefaultOption);
    ItemOptionsChoices(itemOptions, items);
  }

  /**
   * There are n + 1 options; the one initially selected is the last, the
   * "Choose here" placeholder, and it is the only disabled and the only
   * hidden one.
   */
  lemma DropdownSelection(items: seq<string>)
    ensures |DropdownOptions(items)| == |items| + 1
    ensures forall k :: 0 <= k < |DropdownOptions(items)| ==>
              (DropdownOptions(items)[k].selected <==> k == |items|) &&
              (DropdownOptions(items)[k].disabled <==> k == |items|) &&
              (DropdownOptions(items)[k].hidden <==> k == |items|)
    ensures DropdownOptions(items)[|items|].text == DefaultOptionText
  {
  }

  /**
   * `addDropdown`: builds the `<select>` that replaces the field, keeping the
   * field's id and name, with one option per item in order and the placeholder last.
   */
  method AddDropdown(field: InputField, items: seq<string>) returns (select: SelectElement)
    ensures select == SelectElement(field.id, NameAttribute(field.name), DropdownOptions(items))
    ensures |select.options| == |items| + 1
    ensures forall k :: 0 <= k < |items| ==> select.options[k] == ItemOption(items[k])
  {
    var options: seq<OptionElement> := [];
    for i := 0 to |items|
      invariant |options| == i
      invariant forall k :: 0 <= k < i ==> options[k] == ItemOption(items[k])
    {
      options := options + [ItemOption(items[i])];
    }
    options := options + [DefaultOption];
    assert options == DropdownOptions(items);
    select := SelectElement(field.id, NameAttribute(field.name), options);
  }
}
