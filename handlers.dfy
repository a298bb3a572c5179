/**
 * The decision logic of the `/read` and `/send` request handlers of main.go:
 * the "not logged in" guard, the checks on the query parameters, the default
 * and override of `count`, and the recipient id built from `phone`. Whether a
 * session is present is an input; what the handler then asks the session to
 * do is the result.
 */
module Handlers {
  import opened Wrappers
  import opened WhatsApp
  import Strconv

  /** The number of history entries `/read` asks for when `count` does not override it. */
  const DefaultCount: int := 10

  /** The server part that turns a phone number into a personal chat id. */
  const UserServer: string := "@s.whatsapp.net"

  /** What a handler does: reject the request, or hand a call to the session. */
  datatype Outcome =
    | Unauthorized
    | BadRequest
    | LoadHistory(jid: string, count: int)
    | Send(body: TextMessage)

  /** The chat id of a phone number. */
  function Jid(phone: string): (jid: string)
    ensures PhoneOf(jid) == Some(phone)
  {
    var jid := phone + UserServer;
    assert jid[..|jid| - |UserServer|] == phone;
    jid
  }

  /** The phone number a chat id belongs to, if it is a personal chat id. */
  function PhoneOf(jid: string): (phone: Option<string>)
    ensures phone.Some? ==> |phone.value| + |UserServer| == |jid|
  {
    if |jid| >= |UserServer| && jid[|jid| - |UserServer|..] == UserServer
    then Some(jid[..|jid| - |UserServer|])
    else None
  }

  lemma JidOfPhoneOf(jid: string)
    requires PhoneOf(jid).Some?
    ensures Jid(PhoneOf(jid).value) == jid
  {
  }

  /** Distinct phone numbers address distinct chats. */
  lemma JidInjective(p: string, q: string)
    requires Jid(p) == Jid(q)
    ensures p == q
  {
  }

  /**
   * The `count` passed to LoadMessages. The check for an empty parameter is
   * subsumed by Atoi, which fails on the empty string: the count is the
   * 64-bit bound when the leading digits overflow, otherwise the parsed value
   * exactly when the parameter is a numeral with nonzero value, otherwise 10.
   */
  function CountFor(countParam: string): (count: int)
    ensures count != 0
    ensures Strconv.Int64Min <= count <= Strconv.Int64Max
    ensures Strconv.Overflows(countParam) ==> count == Strconv.Saturated(countParam)
    ensures !Strconv.Overflows(countParam) ==>
              count == if Strconv.WellFormed(countParam) && Strconv.Value(countParam) != 0
                       then Strconv.Clamp64(Strconv.Value(countParam))
                       else DefaultCount
  {
    if countParam == "" then DefaultCount
    else
      var number := Strconv.Atoi(countParam);
      if number != 0 then number else DefaultCount
  }

  lemma CountWhenAbsent()
    ensures CountFor("") == DefaultCount
  {
  }

  /**
   * "abc", "+", "1e3", " 5" and every other text Atoi rejects with a syntax
   * error, before any digit overflows, leave the default.
   */
  lemma CountWhenUnparsable(countParam: string)
    requires !Strconv.WellFormed(countParam) && !Strconv.Overflows(countParam)
    ensures CountFor(countParam) == DefaultCount
  {
  }

  /**
   * A `count` whose leading digits overflow, whatever follows them, is the
   * 64-bit bound on the side of its sign: the minimum after a '-', else the
   * maximum.
   */
  lemma CountWhenOverflows(countParam: string)
    requires Strconv.Overflows(countParam)
    ensures CountFor(countParam) == Strconv.Saturated(countParam)
    ensures countParam[0] == '-' ==> CountFor(countParam) == Strconv.Int64Min
    ensures countParam[0] != '-' ==> CountFor(countParam) == Strconv.Int64Max
  {
  }

  /** A run of digits that overflows before a bad character sets the count to the bound, not 10. */
  lemma CountWhenOverflowBeforeJunk()
    ensures CountFor("99999999999999999999x") == Strconv.Int64Max
  {
    Strconv.TwentyNinesThenLetter();
  }

  /** "0", "-0", "+000" and every other numeral for zero leave the default. */
  lemma CountWhenZero(countParam: string)
    requires Strconv.WellFormed(countParam) && Strconv.Value(countParam) == 0
    ensures CountFor(countParam) == DefaultCount
  {
  }

  /** Any nonzero 64-bit integer, written as Itoa writes it, becomes the count. */
  lemma CountOverride(n: int)
    requires n != 0 && Strconv.Int64Min <= n <= Strconv.Int64Max
    ensures CountFor(Strconv.Itoa(n)) == n
  {
    Strconv.AtoiOfItoa(n);
  }

  /** The `/read` handler: what it asks of the session, or why it refuses. */
  function ReadRequest(sessionPresent: bool, phone: string, countParam: string): (o: Outcome)
    ensures !sessionPresent ==> o == Unauthorized
    ensures sessionPresent && phone == "" ==> o == BadRequest
    ensures o.LoadHistory? <==> sessionPresent && phone != ""
    ensures o.LoadHistory? ==> PhoneOf(o.jid) == Some(phone) && o.count == CountFor(countParam)
    ensures !o.Send?
  {
    if !sessionPresent then Unauthorized
    else if phone == "" then BadRequest
    else
      LoadHistory(Jid(phone), CountFor(countParam))
  }

  /** The `/send` handler: the message it hands to the session, or why it refuses. */
  function SendRequest(sessionPresent: bool, phone: string, text: string): (o: Outcome)
    ensures !sessionPresent ==> o == Unauthorized
    ensures sessionPresent && (phone == "" || text == "") ==> o == BadRequest
    ensures o.Send? <==> sessionPresent && phone != "" && text != ""
    ensures o.Send? ==> PhoneOf(o.body.info.remoteJid) == Some(phone) && o.body.text == text
    ensures !o.LoadHistory?
  {
    if !sessionPresent then Unauthorized
    else if text == "" || phone == "" then BadRequest
    else
      Send(TextMessage(MessageInfo(Jid(phone)), text))
  }

  /**
   * Once a session is present, a well-formed send goes out where it was
   * refused before, and the messages of two sends to distinct phones go to
   * distinct chats.
   */
  lemma SendAfterLogin(phone: string, phone': string, text: string)
    requires phone != "" && phone' != "" && text != "" && phone != phone'
    ensures SendRequest(false, phone, text) == Unauthorized
    ensures SendRequest(true, phone, text).Send?
    ensures SendRequest(true, phone, text).body.info.remoteJid != SendRequest(true, phone', text).body.info.remoteJid
  {
  }
}
