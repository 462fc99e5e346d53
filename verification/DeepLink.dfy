/**
 * The submit handler: when the amount, the provider and a valid phone are
 * present it fills the fixed Spanish message with the phone and the amount
 * and builds the WhatsApp link `https://wa.me/<provider digits>?text=<message>`.
 * Parsers read the provider digits, the message, the phone and the amount
 * back out of the link.
 */
module DeepLink {
  import opened JsText
  import opened Phone
  import opened UriComponent

  const Greeting := "Hola, solicito una transferencia de saldo a mi número "
  const Middle := " por un monto de "
  const Closing := ". ¡Gracias!"

  const Base := "https://wa.me/"
  const Query := "?text="

  /** The message the link pre-fills. */
  function Message(phone: string, amount: string): (m: string)
    ensures |m| == |Greeting| + |phone| + |Middle| + |amount| + |Closing|
  {
    Greeting + phone + Middle + amount + Closing
  }

  /** The link: the provider reduced to its digits is the path, the encoded message the `text` parameter. */
  function WhatsAppUrl(provider: string, msg: string): (url: string)
    ensures |url| >= |Base| + |DigitsOnly(provider)| + |Query| && url[..|Base|] == Base
    ensures forall i :: |Base| <= i < |Base| + |DigitsOnly(provider)| ==> IsDigit(url[i])
  {
    Base + DigitsOnly(provider) + Query + EncodeURIComponent(msg)
  }

  /** What a click on the submit button does. */
  datatype SubmitOutcome =
    | Ignored          // a field is missing: the handler returns at once
    | InvalidPhone     // the final validation fails: a notification, focus on the phone box
    | Open(url: string)  // the link opened in a new window

  function Submit(amount: JsStr, provider: JsStr, userPhone: string): (r: SubmitOutcome)
    ensures r.Open? ==> amount.Truthy() && provider.Truthy() && ValidateCubanPhone(userPhone)
    ensures r == InvalidPhone ==> userPhone != "" && !ValidateCubanPhone(userPhone)
  {
    if !amount.Truthy() || !provider.Truthy() || userPhone == "" then Ignored
    else if !ValidateCubanPhone(userPhone) then InvalidPhone
    else Open(WhatsAppUrl(provider.s, Message(userPhone, amount.s)))
  }

  predicate IsPathChar(c: char) {
    InClass(c, NotQuestion)
  }

  /** Reads the provider digits and the decoded message back out of a link. */
  function ParseUrl(url: string): (r: Option<(string, string)>)
  {
    if |url| < |Base| || url[..|Base|] != Base then None
    else
      var rest := url[|Base|..];
      var k := RunLength(rest, NotQuestion);
      var query := rest[k..];
      if |query| < |Query| || query[..|Query|] != Query then None
      else
        match DecodeURIComponent(query[|Query|..])
        case None => None
        case Some(msg) => Some((rest[..k], msg))
  }

  /** Reads the phone and the amount back out of a message whose phone is made of digits and `+`. */
  function ParseMessage(m: string): (r: Option<(string, string)>)
  {
    if |m| < |Greeting| || m[..|Greeting|] != Greeting then None
    else
      var body := m[|Greeting|..];
      var k := RunLength(body, DigitsAndPlus);
      var after := body[k..];
      if |after| < |Middle| + |Closing| || after[..|Middle|] != Middle
        || after[|after| - |Closing|..] != Closing
      then None
      else Some((body[..k], after[|Middle|..|after| - |Closing|]))
  }

  /** A link whose path has no `?` is read as that path and the decoded `text` parameter. */
  lemma ParseUrlParts(path: string, enc: string)
    requires forall i :: 0 <= i < |path| ==> IsPathChar(path[i])
    ensures ParseUrl(Base + path + Query + enc)
      == match DecodeURIComponent(enc) case None => None case Some(m) => Some((path, m))
  {
    var url := Base + path + Query + enc;
    assert url == Base + (path + (Query + enc));
    var rest := url[|Base|..];
    assert rest == path + (Query + enc);
    RunLengthStopsAt(path, Query + enc, NotQuestion);
    assert rest[..|path|] == path;
    var query := rest[|path|..];
    assert query == Query + enc;
    assert query[..|Query|] == Query && query[|Query|..] == enc;
  }

  /** The link carries exactly the provider's digits and the message. */
  lemma ParseWhatsAppUrl(provider: string, msg: string)
    ensures ParseUrl(WhatsAppUrl(provider, msg)) == Some((DigitsOnly(provider), msg))
  {
    ParseUrlParts(DigitsOnly(provider), EncodeURIComponent(msg));
    DecodeEncode(msg);
  }

  /** A message built from a sanitised phone gives back that phone and the amount. */
  lemma ParseBuiltMessage(phone: string, amount: string)
    requires forall i :: 0 <= i < |phone| ==> IsPhoneChar(phone[i])
    ensures ParseMessage(Message(phone, amount)) == Some((phone, amount))
  {
    var m := Message(phone, amount);
    assert m == Greeting + (phone + (Middle + amount + Closing));
    var body := m[|Greeting|..];
    assert body == phone + (Middle + amount + Closing);
    RunLengthStopsAt(phone, Middle + amount + Closing, DigitsAndPlus);
    assert body[..|phone|] == phone;
    var after := body[|phone|..];
    assert after == Middle + amount + Closing;
    assert after[..|Middle|] == Middle;
    assert after[|after| - |Closing|..] == Closing;
    assert after[|Middle|..|after| - |Closing|] == amount;
  }

  /**
   * The button's three outcomes: nothing happens while a field is missing,
   * an invalid phone is reported, and otherwise a link is opened.
   */
  lemma SubmitOutcomes(amount: JsStr, provider: JsStr, userPhone: string)
    ensures Submit(amount, provider, userPhone).Open?
      <==> amount.Truthy() && provider.Truthy() && ValidateCubanPhone(userPhone)
    ensures Submit(amount, provider, userPhone) == Ignored
      <==> !amount.Truthy() || !provider.Truthy() || userPhone == ""
    ensures Submit(amount, provider, userPhone) == InvalidPhone
      <==> amount.Truthy() && provider.Truthy() && userPhone != "" && !ValidateCubanPhone(userPhone)
  {
    if ValidateCubanPhone(userPhone) {
      ValidPhoneIsLong(userPhone);
    }
  }

  /**
   * An opened link leads to the provider's digits and carries a message
   * from which the phone and the amount are read back.
   */
  lemma SubmitLinkContents(amount: JsStr, provider: JsStr, userPhone: string)
    requires Submit(amount, provider, userPhone).Open?
    requires forall i :: 0 <= i < |userPhone| ==> IsPhoneChar(userPhone[i])
    ensures var url := Submit(amount, provider, userPhone).url;
      match ParseUrl(url)
      case None => false
      case Some(parts) =>
        parts.0 == DigitsOnly(provider.s) && ParseMessage(parts.1) == Some((userPhone, amount.s))
  {
    var msg := Message(userPhone, amount.s);
    ParseWhatsAppUrl(provider.s, msg);
    ParseBuiltMessage(userPhone, amount.s);
  }

  /** The `+` of the provider's international number is not part of the path. */
  lemma ProviderPathExample(provider: string)
    requires provider == "+5355551234"
    ensures DigitsOnly(provider) == "5355551234"
  {
    assert provider == [provider[0]] + provider[1..];
    KeepAppend([provider[0]], provider[1..], Digits);
    KeepFixpoint(provider[1..], Digits);
    assert provider[1..] == "5355551234";
  }
}
