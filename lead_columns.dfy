/**
 * The leads table's columns: the status badge variant, the entries of the row's action menu
 * and the body of the lead-to-deal conversion request. Statuses are compared lower-cased.
 */
module LeadColumns {
  import opened Wrappers
  import Text

  datatype Variant = Default | Secondary | Destructive

  /** `getStatusVariant`: a missing status compares as no known status. */
  function StatusVariant(status: Option<string>): Variant {
    if status.None? then Default
    else
      var s := Text.ToLower(status.value);
      if s == "contacted" then Secondary
      else if s == "lost" then Destructive
      else Default
  }

  /**
   * Only "contacted" (in any letter case) is secondary and only "lost" destructive; every
   * other status, new, qualified and converted included, is default, and the letter case of
   * the status never matters.
   */
  lemma StatusVariantCases(status: string)
    ensures StatusVariant(Some(status)) == Secondary <==> Text.ToLower(status) == "contacted"
    ensures StatusVariant(Some(status)) == Destructive <==> Text.ToLower(status) == "lost"
    ensures StatusVariant(Some(status)) == Default <==>
              Text.ToLower(status) != "contacted" && Text.ToLower(status) != "lost"
    ensures StatusVariant(Some(Text.ToLower(status))) == StatusVariant(Some(status))
  {
    Text.ToLowerIdempotent(status);
  }

  /** The row menu shows "Convert to Deal". */
  predicate ShowsConvert(status: string) {
    var s := Text.ToLower(status);
    s != "converted" && s != "lost"
  }

  /** The row menu shows the disabled "Already Converted" entry. */
  predicate ShowsAlreadyConverted(status: string) {
    Text.ToLower(status) == "converted"
  }

  /**
   * The two entries never show together: a converted lead offers only "Already Converted",
   * a lost lead neither, and any other lead only "Convert to Deal", whatever the letter case.
   */
  lemma MenuEntries(status: string)
    ensures !(ShowsConvert(status) && ShowsAlreadyConverted(status))
    ensures ShowsConvert(status) || ShowsAlreadyConverted(status) <==> Text.ToLower(status) != "lost"
    ensures ShowsConvert(Text.ToLower(status)) == ShowsConvert(status)
    ensures ShowsAlreadyConverted(Text.ToLower(status)) == ShowsAlreadyConverted(status)
  {
    Text.ToLowerIdempotent(status);
  }

  /** The JSON body of the conversion request. */
  datatype ConvertBody = ConvertBody(title: string, value: int, probability: int)

  const DefaultDealValue := 5000
  const DefaultProbability := 50
  const DealSuffix := " - Deal"

  /** `handleConvertToDeal`'s request body for a lead named `name`. */
  function ConvertRequest(name: string): ConvertBody {
    ConvertBody(name + DealSuffix, DefaultDealValue, DefaultProbability)
  }

  /**
   * The new deal is titled by the lead's name followed by " - Deal", so distinct names give
   * distinct titles; it is worth 5000 at a probability of 50.
   */
  lemma ConvertRequestSpec(name: string, other: string)
    ensures var b := ConvertRequest(name);
            && b.title[..|name|] == name && b.title[|name|..] == " - Deal"
            && b.value == 5000 && b.probability == 50
    ensures ConvertRequest(name).title == ConvertRequest(other).title ==> name == other
  {
    var t, u := ConvertRequest(name).title, ConvertRequest(other).title;
    if t == u {
      assert |name| == |other|;
      assert t[..|name|] == name && u[..|other|] == other;
    }
  }
}
