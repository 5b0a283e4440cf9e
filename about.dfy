/**
 * A practitioner's card on the about page: a description longer than 180
 * characters is shown cut to its first 180 characters and an ellipsis
 * until the reader expands it.
 */
module About {

  const DescriptionTruncateLength: nat := 180

  const Ellipsis: char := '\U{2026}'

  /** `isLong`: the description is over the limit. */
  predicate IsLong(description: string)
  {
    |description| > DescriptionTruncateLength
  }

  /** `displayDesc`: the text the card shows. */
  function DisplayDescription(description: string, isExpanded: bool): (r: string)
    ensures !IsLong(description) || isExpanded ==> r == description
    ensures IsLong(description) && !isExpanded ==>
              |r| == DescriptionTruncateLength + 1
              && r[..DescriptionTruncateLength] == description[..DescriptionTruncateLength]
              && r[DescriptionTruncateLength] == Ellipsis
  {
    if IsLong(description) && !isExpanded
    then description[..DescriptionTruncateLength] + [Ellipsis]
    else description
  }

  /**
   * The card shows something other than the full description exactly when
   * the description is long, the card is collapsed, and the cut does not
   * happen to reproduce it (a 181-character description ending in an
   * ellipsis).
   */
  lemma ShowsCutIff(description: string, isExpanded: bool)
    ensures DisplayDescription(description, isExpanded) != description <==>
              IsLong(description) && !isExpanded
              && !(|description| == DescriptionTruncateLength + 1 && description[DescriptionTruncateLength] == Ellipsis)
  {
    var d := description;
    if IsLong(d) && !isExpanded && |d| == DescriptionTruncateLength + 1 && d[DescriptionTruncateLength] == Ellipsis {
      assert d == d[..DescriptionTruncateLength] + [Ellipsis];
    }
  }

  /** Whatever the state, the shown text up to the ellipsis is a prefix of the description. */
  lemma DisplayedIsPrefix(description: string, isExpanded: bool)
    ensures var r := DisplayDescription(description, isExpanded);
            r == description || (|r| > 0 && r[..|r| - 1] <= description && |r| <= |description|)
  {
    var r := DisplayDescription(description, isExpanded);
    if r != description {
      assert r[..|r| - 1] == description[..DescriptionTruncateLength];
    }
  }

  class PractitionerCard {
    const description: string
    var isExpanded: bool

    /** Every card starts collapsed. */
    constructor (description: string)
      ensures this.description == description && !isExpanded
    {
      this.description := description;
      isExpanded := false;
    }

    /** The text the card shows in its current state. */
    function Displayed(): (r: string)
      reads this
      ensures !IsLong(description) || isExpanded ==> r == description
      ensures IsLong(description) && !isExpanded ==> r == description[..DescriptionTruncateLength] + [Ellipsis]
    {
      DisplayDescription(description, isExpanded)
    }

    /** The toggle button, which only a long description has, flips the state. */
    method Toggle()
      requires IsLong(description)
      modifies this
      ensures isExpanded == !old(isExpanded)
    {
      isExpanded := !isExpanded;
    }
  }
}
