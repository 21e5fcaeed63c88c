/** The text input element the widgets decorate. */
module Page {
  import opened Wrappers

  /** Placeholder shown on a field that received no data. */
  const LockedPlaceholder: string := "locked - no data"

  /** An `<input>` on the lending form, found by its id. */
  class InputField {
    const id: string
    /** The `name` attribute; None when the element has none (getAttribute gives null). */
    const name: Option<string>
    var value: string
    var placeholder: string
    var disabled: bool

    constructor (id: string, name: Option<string>, value: string)
      ensures this.id == id && this.name == name && this.value == value
      ensures placeholder == [] && !disabled
    {
      this.id := id;
      this.name := name;
      this.value := value;
      placeholder := [];
      disabled := false;
    }

    /** `lockInput`: marks the field as having no data and disables it; its text is kept. */
    method LockInput()
      modifies this
      ensures placeholder == LockedPlaceholder && disabled
      ensures value == old(value)
    {
      placeholder := LockedPlaceholder;
      disabled := true;
    }
  }
}
