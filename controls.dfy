/**
 * Form controls as the two scripts see them once the DOM is taken away:
 * a name, an id, an input type, the `required` attribute, the current
 * value and the default value that `form.reset()` restores.
 */
module Controls {

  import opened Wrappers
  import opened Text

  /** The `type` of a control, as far as the scripts look at it. */
  datatype InputType = Email | Tel | OtherType

  datatype Control = Control(
    name: string,
    id: string,
    inputType: InputType,
    required: bool,
    value: string,
    defaultValue: string)

  /** `document.getElementById(id)`: the first control in document order with that id. */
  function FirstWithId(cs: seq<Control>, id: string): (r: Option<nat>)
    ensures r.Some? ==> r.value < |cs| && cs[r.value].id == id
    ensures forall k | 0 <= k < |cs| && (r.None? || k < r.value) :: cs[k].id != id
  {
    if cs == [] then None
    else if cs[0].id == id then Some(0)
    else match FirstWithId(cs[1..], id)
      case None => None
      case Some(k) => Some(k + 1)
  }

  /** `form.querySelector('[name="..."]')`: the first control carrying that name.
      The empty name stands for a missing `name` attribute and is never
      selected. A present but empty attribute, which the selector `[name=""]`
      would find, is not told apart; only a draft key `""` would ask for it,
      and saving skips fields without a name. */
  function FirstNamed(cs: seq<Control>, name: string): (r: Option<nat>)
    ensures r.Some? ==> r.value < |cs| && cs[r.value].name == name && name != ""
    ensures name != "" ==> forall k | 0 <= k < |cs| && (r.None? || k < r.value) :: cs[k].name != name
  {
    if cs == [] || name == "" then None
    else if cs[0].name == name then Some(0)
    else match FirstNamed(cs[1..], name)
      case None => None
      case Some(k) => Some(k + 1)
  }

  /** Lookups by name see only the names: changing values leaves them where they were. */
  lemma {:induction false} FirstNamedSeesNames(cs: seq<Control>, ds: seq<Control>, name: string)
    requires |cs| == |ds|
    requires forall k | 0 <= k < |cs| :: cs[k].name == ds[k].name
    ensures FirstNamed(cs, name) == FirstNamed(ds, name)
  {
    if cs != [] && name != "" && cs[0].name != name {
      FirstNamedSeesNames(cs[1..], ds[1..], name);
    }
  }

  /** `form.reset()`: every control goes back to its default value. */
  function ResetValues(cs: seq<Control>): seq<Control> {
    seq(|cs|, i requires 0 <= i < |cs| => cs[i].(value := cs[i].defaultValue))
  }
}
