/**
 * The data shapes the relay reads and writes (src/main.rs, lines 7-24), the
 * fixed topic names, and the abstract actions that stand for its calls into
 * the broker and the backend.
 */
module Messages {

  /** Rust's `i32`: floors are carried unchanged, never computed with. */
  newtype int32 = x: int | -0x8000_0000 <= x < 0x8000_0000

  /** One byte of a transport payload. */
  newtype byte = x: int | 0 <= x < 0x100

  /** The message published to a robot: `MqttCommand`. */
  datatype MqttCommand = MqttCommand(tagId: string, floor: int32)

  /** A pending command as the backend returns it: `DbCommand`. */
  datatype DbCommand = DbCommand(id: string, tagId: string, floor: int32)

  /** What a robot reports on an inbound topic: `RobotFeedback`. */
  datatype RobotFeedback = RobotFeedback(tagId: string, floor: int32)

  /** The outbound topic of the dispatch cycle. */
  const CommandsTopic: string := "robot/commands"

  /** The two inbound topics the relay subscribes to. */
  const FeedbackTopic: string := "robot/feedback"
  const PutTopic: string := "robot/put"

  /** The externally visible calls the relay makes. */
  datatype Action =
      /** publish on the broker at at-least-once delivery */
    | Publish(topic: string, payload: MqttCommand)
      /** `POST /commands/{pathId}/complete`, without a body */
    | PostComplete(pathId: string)
      /** `POST /robot/feedback` with the feedback as its JSON body */
    | PostFeedback(body: RobotFeedback)

  /** The wire projection of a pending command: its tag and floor, not its id. */
  function ToMqttCommand(c: DbCommand): MqttCommand {
    MqttCommand(c.tagId, c.floor)
  }
}
