/** `AcceleraBannerType` and `AcceleraConfig`. */
module Config {
  import opened Wrappers

  /** How a banner is placed on screen. */
  datatype BannerType = Notification | Top | Center | Fullscreen

  /** The enum's `String` raw values: the case names. */
  function RawValue(t: BannerType): string {
    match t
    case Notification => "notification"
    case Top => "top"
    case Center => "center"
    case Fullscreen => "fullscreen"
  }

  /** `AcceleraBannerType(rawValue:)`: nil for any string that is not a raw value. */
  function FromRawValue(s: string): Option<BannerType> {
    if s == "notification" then Some(Notification)
    else if s == "top" then Some(Top)
    else if s == "center" then Some(Center)
    else if s == "fullscreen" then Some(Fullscreen)
    else None
  }

  /** Every case comes back from its raw value. */
  lemma RawValueRoundTrip(t: BannerType)
    ensures FromRawValue(RawValue(t)) == Some(t)
  {
  }

  /** A string that decodes is exactly the raw value of what it decodes to; so raw values are distinct. */
  lemma FromRawValueInverse(s: string)
    ensures FromRawValue(s).Some? ==> RawValue(FromRawValue(s).value) == s
    ensures FromRawValue(s).Some? <==> s in {"notification", "top", "center", "fullscreen"}
  {
  }

  lemma RawValuesDistinct(a: BannerType, b: BannerType)
    ensures RawValue(a) == RawValue(b) <==> a == b
  {
    if RawValue(a) == RawValue(b) {
      RawValueRoundTrip(a);
      RawValueRoundTrip(b);
    }
  }

  /** `AcceleraConfig`: the application token, the system address and the user identifier. */
  datatype AcceleraConfig = AcceleraConfig(token: string, url: string, userId: string)

  /** `init(token:url:userId:)` keeps the three values as given. */
  function NewConfig(token: string, url: string, userId: string): (c: AcceleraConfig)
    ensures c.token == token && c.url == url && c.userId == userId
  {
    AcceleraConfig(token, url, userId)
  }
}
