/**
 * The create/edit form: its field state, how each input event changes it,
 * the submit guard and the submit button's disabled condition.
 */
module ProductForm {
  import opened Wrappers
  import opened Text
  import opened Schema
  import ProductsRoute

  /**
   * The form's `type_tag`: a number when it comes from the initial state or a
   * loaded product, the select's raw text once the user has changed it
   * (`handleChange` parses only the `ID` field).
   */
  datatype FormTag = TagNumber(n: int) | TagText(text: string)

  datatype FormData = FormData(id: int, name: string, tag: FormTag)

  const InitialFormData := FormData(0, "", TagNumber(Unclassified))

  /** A change event: the input's `name` and its `value` text. */
  datatype FieldInput = IdInput(text: string) | NameInput(text: string) | TagInput(text: string)

  /**
   * The state update of `handleChange`: the named field takes the value, as
   * `parseInt(value) || 0` for `ID` and as the raw text otherwise; the other
   * fields keep theirs.
   */
  function ApplyChange(f: FormData, input: FieldInput): (g: FormData)
    ensures input.IdInput? ==> g == f.(id := ParseIntOrZero(input.text))
    ensures input.NameInput? ==> g == f.(name := input.text)
    ensures input.TagInput? ==> g == f.(tag := TagText(input.text))
  {
    match input
    case IdInput(text) => f.(id := ParseIntOrZero(text))
    case NameInput(text) => f.(name := text)
    case TagInput(text) => f.(tag := TagText(text))
  }

  /** The guard of `handleSubmit`: a positive `ID` and a name that is not blank. */
  predicate CanSubmit(f: FormData) {
    f.id > 0 && Trim(f.name) != ""
  }

  /**
   * The guard in terms of the raw input: a positive `ID` and a name holding at
   * least one character that is not whitespace.
   */
  lemma SubmitGuardMeaning(f: FormData)
    ensures CanSubmit(f) <==> f.id > 0 && exists i :: 0 <= i < |f.name| && !IsWhitespace(f.name[i])
  {
  }

  /** The submit button's `disabled` expression. */
  predicate SubmitDisabled(isLoading: bool, f: FormData) {
    isLoading || f.id <= 0 || !(Trim(f.name) != "")
  }

  /**
   * The button and the handler agree: while not loading the button is enabled
   * exactly when a submit would go through, and while loading it is disabled.
   */
  lemma ButtonMatchesSubmitGuard(isLoading: bool, f: FormData)
    ensures !isLoading ==> (SubmitDisabled(isLoading, f) <==> !CanSubmit(f))
    ensures isLoading ==> SubmitDisabled(isLoading, f)
  {
  }

  /**
   * Which changes can enable or disable submission: a tag change never does;
   * after a name change the guard depends on the new name only; after typing
   * an integer into `ID` it depends on the sign of that integer.
   */
  lemma ChangesAndSubmitGuard(f: FormData, text: string, n: int)
    ensures CanSubmit(ApplyChange(f, TagInput(text))) == CanSubmit(f)
    ensures CanSubmit(ApplyChange(f, NameInput(text))) <==> f.id > 0 && !AllWhitespace(text)
    ensures CanSubmit(ApplyChange(f, IdInput(DecimalString(n)))) <==> n > 0 && Trim(f.name) != ""
  {
    ParseIntOfDecimalString(n);
  }

  /** Typing the decimal form of any integer into the `ID` field stores that integer. */
  lemma IdInputRoundTrip(f: FormData, n: int)
    ensures ApplyChange(f, IdInput(DecimalString(n))).id == n
  {
    ParseIntOfDecimalString(n);
  }

  /** A non-numeric `ID` text is stored as 0, which blocks submission. */
  lemma NonNumericIdBlocksSubmit(f: FormData, text: string)
    requires ParseInt(text).None?
    ensures ApplyChange(f, IdInput(text)).id == 0
    ensures !CanSubmit(ApplyChange(f, IdInput(text)))
  {
  }

  /** Whatever a submittable form sends passes the create route's field check. */
  lemma SubmittableFormPassesCreateGuard(f: FormData, tag: Option<int>)
    requires CanSubmit(f)
    ensures ProductsRoute.HasRequiredFields(ProductsRoute.CreateBody(Some(f.id), Some(f.name), tag))
  {
    NonBlankIsNonEmpty(f.name);
  }

  lemma NonBlankIsNonEmpty(name: string)
    requires Trim(name) != ""
    ensures name != ""
  {
    assert |Trim(name)| <= |name|;
  }

  /** The form component's state. */
  class ProductFormState {
    var formData: FormData

    constructor ()
      ensures formData == InitialFormData
    {
      formData := InitialFormData;
    }

    /** The effect on `product`: a given product's fields replace the form's; none leaves it alone. */
    method LoadProduct(product: Option<Product>)
      modifies this
      ensures product.Some? ==>
        formData == FormData(product.value.id, product.value.name, TagNumber(product.value.tag))
      ensures product.None? ==> formData == old(formData)
    {
      if product.Some? {
        formData := FormData(product.value.id, product.value.name, TagNumber(product.value.tag));
      }
    }

    /** `handleChange`. */
    method HandleChange(input: FieldInput)
      modifies this
      ensures formData == ApplyChange(old(formData), input)
    {
      formData := ApplyChange(formData, input);
    }

    /**
     * `handleSubmit`: hands the whole form to `onSubmit` exactly when the
     * button would be enabled outside loading; what it hands on passes the
     * create route's field check.
     */
    method HandleSubmit() returns (submitted: Option<FormData>)
      ensures submitted.Some? <==> !SubmitDisabled(false, formData)
      ensures submitted.Some? ==> submitted.value == formData
      ensures submitted.Some? ==>
        ProductsRoute.HasRequiredFields(ProductsRoute.CreateBody(Some(formData.id), Some(formData.name), None))
    {
      if formData.id > 0 && Trim(formData.name) != "" {
        submitted := Some(formData);
      } else {
        submitted := None;
      }
    }
  }
}
