/**
 * The messages a knowledge base exchanges with its peers, reduced to what the
 * router looks at: a message's own identifier and, for replies, the identifier
 * of the request it answers. Payloads, sender and recipient are opaque here.
 */
module Messages {

  /** A message identifier. The source uses random UUIDs; any integer stands for one. */
  type MessageId = int

  datatype Message =
    | Ask(messageId: MessageId)
    | Answer(messageId: MessageId, replyToAsk: MessageId)
    | Post(messageId: MessageId)
    | React(messageId: MessageId, replyToPost: MessageId)
    | Error(messageId: MessageId, replyTo: MessageId)

  type AskMessage = m: Message | m.Ask? witness Ask(0)
  type AnswerMessage = m: Message | m.Answer? witness Answer(0, 0)
  type PostMessage = m: Message | m.Post? witness Post(0)
  type ReactMessage = m: Message | m.React? witness React(0, 0)
  type ErrorMessage = m: Message | m.Error? witness Error(0, 0)
}
