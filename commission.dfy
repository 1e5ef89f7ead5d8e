/**
 * The commission page: three pricing tiers and a request form whose submit
 * checks that the required fields are filled in.
 */
module Commission {

  /** A pricing tier; prices are whole dollars. */
  datatype Tier = Tier(
    name: string,
    startingPrice: nat,
    size: string,
    timeline: string,
    includes: seq<string>,
    featured: bool)

  const PricingTiers: seq<Tier> := [
    Tier("Essence", 1500, "Small (up to 12\")", "4-6 weeks",
      ["Consultation", "Concept sketches", "Single revision", "Certificate of authenticity"], false),
    Tier("Statement", 4000, "Medium (12-24\")", "8-12 weeks",
      ["Extended consultation", "3D mockup", "Two revisions", "Process documentation",
       "Certificate of authenticity"], true),
    Tier("Monument", 10000, "Large (24\"+)", "12-20 weeks",
      ["Full creative partnership", "Multiple concepts", "Unlimited revisions", "Full documentation",
       "Installation support", "Certificate of authenticity"], false)
  ]

  /** The tiers are listed from the cheapest up, and exactly one is featured. */
  lemma TiersAscending()
    ensures forall i, j :: 0 <= i < j < |PricingTiers| ==>
      PricingTiers[i].startingPrice < PricingTiers[j].startingPrice
    ensures forall i :: 0 <= i < |PricingTiers| ==> (PricingTiers[i].featured <==> i == 1)
  {
  }

  /** The values of the tier dropdown: the empty "optional" choice, then each tier's name in order. */
  function TierOptions(): (r: seq<string>)
    ensures |r| == |PricingTiers| + 1 && r[0] == ""
    ensures forall i :: 0 <= i < |PricingTiers| ==> r[i + 1] == PricingTiers[i].name
  {
    [""] + seq(|PricingTiers|, i requires 0 <= i < |PricingTiers| => PricingTiers[i].name)
  }

  /** Every tier the "Select" buttons can choose is offered by the dropdown, and no value is offered twice. */
  lemma TierOptionsDistinct()
    ensures forall i :: 0 <= i < |PricingTiers| ==> PricingTiers[i].name in TierOptions()
    ensures forall i, j :: 0 <= i < j < |TierOptions()| ==> TierOptions()[i] != TierOptions()[j]
  {
    var r := TierOptions();
    assert r == ["", "Essence", "Statement", "Monument"];
  }

  datatype FormData = FormData(name: string, email: string, tier: string, description: string)

  const EmptyForm := FormData("", "", "", "")

  datatype FormField = Name | Email | TierChoice | Description

  /** The fields the submit insists on; the tier is optional. */
  predicate Required(f: FormField) {
    f != TierChoice
  }

  function Field(fd: FormData, f: FormField): string {
    match f
    case Name => fd.name
    case Email => fd.email
    case TierChoice => fd.tier
    case Description => fd.description
  }

  /** The form after the input of field `f` changed to `v`: that field changes and no other. */
  function WithField(fd: FormData, f: FormField, v: string): (r: FormData)
    ensures Field(r, f) == v
    ensures forall g :: g != f ==> Field(r, g) == Field(fd, g)
  {
    match f
    case Name => fd.(name := v)
    case Email => fd.(email := v)
    case TierChoice => fd.(tier := v)
    case Description => fd.(description := v)
  }

  /** The submit's check: name, email and description are all non-empty (white space counts as filled in). */
  predicate Complete(fd: FormData) {
    fd.name != "" && fd.email != "" && fd.description != ""
  }

  /** The check accepts a form exactly when every required field is non-empty. */
  lemma CompleteIffRequiredFilled(fd: FormData)
    ensures Complete(fd) <==> forall f :: Required(f) ==> Field(fd, f) != ""
  {
    if !Complete(fd) {
      if fd.name == "" {
        assert Required(Name) && Field(fd, Name) == "";
      } else if fd.email == "" {
        assert Required(Email) && Field(fd, Email) == "";
      } else {
        assert Required(Description) && Field(fd, Description) == "";
      }
    }
  }

  /** The tier never decides whether a form is accepted. */
  lemma TierIsOptional(fd: FormData, v: string)
    ensures Complete(WithField(fd, TierChoice, v)) == Complete(fd)
  {
  }

  /** The check does not trim: a name of one space passes. */
  lemma BlankNamePasses()
    ensures Complete(FormData(" ", "a@b.c", "", "a bust"))
  {
  }

  /** The state of the commission page. */
  class CommissionPage {
    var formData: FormData
    var isSubmitted: bool

    constructor ()
      ensures formData == EmptyForm && !isSubmitted
    {
      formData := EmptyForm;
      isSubmitted := false;
    }

    /** The submit: accepted exactly when the form is complete; the form itself is kept either way. */
    method HandleSubmit() returns (accepted: bool)
      modifies this`isSubmitted
      ensures accepted <==> Complete(formData)
      ensures accepted ==> isSubmitted
      ensures !accepted ==> isSubmitted == old(isSubmitted)
    {
      if !(formData.name != "" && formData.email != "" && formData.description != "") {
        return false;
      }
      isSubmitted := true;
      accepted := true;
    }

    /** The "Select" button of tier `i`. */
    method SelectTier(i: int)
      requires 0 <= i < |PricingTiers|
      modifies this`formData
      ensures formData == WithField(old(formData), TierChoice, PricingTiers[i].name)
      ensures formData.tier in TierOptions()
    {
      formData := formData.(tier := PricingTiers[i].name);
      TierOptionsDistinct();
    }

    /** An input of the form. */
    method Update(f: FormField, v: string)
      modifies this`formData
      ensures formData == WithField(old(formData), f, v)
    {
      formData := WithField(formData, f, v);
    }
  }
}
