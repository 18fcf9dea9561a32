/** `HTMLParserError` and its `errorDescription` table. */
module HTMLParserErrors {
  datatype HTMLParserError = NonValidHTML | EmptyHTML | Other

  /** `errorDescription`: a fixed message per case. */
  function ErrorDescription(e: HTMLParserError): (r: string)
    ensures e.NonValidHTML? ==> r == "Provided html is not valid"
    ensures e.EmptyHTML? ==> r == "Provided html is empty"
    ensures e.Other? ==> r == "Something went wrong"
  {
    match e
    case NonValidHTML => "Provided html is not valid"
    case EmptyHTML => "Provided html is empty"
    case Other => "Something went wrong"
  }

  /** The three descriptions are pairwise distinct, so a description identifies its case. */
  lemma DescriptionsDistinct(a: HTMLParserError, b: HTMLParserError)
    ensures ErrorDescription(a) == ErrorDescription(b) <==> a == b
  {
    if a != b {
      assert |ErrorDescription(a)| != |ErrorDescription(b)|;
    }
  }
}
