/**
 * The values of the go-whatsapp library that main.go handles. Only the fields
 * main.go reads or sets are modelled; the library's other fields are opaque here.
 */
module WhatsApp {

  /** The header of a message: main.go only sets the recipient id. */
  datatype MessageInfo = MessageInfo(remoteJid: string)

  /** A text message, both as received from the session and as sent through it. */
  datatype TextMessage = TextMessage(info: MessageInfo, text: string)

  /** The serialised bytes pushed to a subscriber; their content is not interpreted. */
  type Payload = seq<bv8>
}
