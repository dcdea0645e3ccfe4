/** Queued messages: the envelope of `envelope.rs` and the stored element that holds it. */
module Messages {
  import opened Integers

  /** Three steps in the life of a queued message (mod.rs:50-59). */
  datatype Stage = Pending | InProgress | Failed

  /** `command` stands for the plugin name, command name and payload, which the queue only
      stores. */
  datatype Envelope = Envelope(id: nat, command: nat, attempts: u32, maxRetries: u32) {

    /** The claim's `attempts += 1`, which wraps in a release build. */
    function CountAttempt(): Envelope {
      this.(attempts := if attempts == U32_MAX then 0 else attempts + 1)
    }

    /** The release's `saturating_sub(1)`. */
    function TakeBackAttempt(): Envelope {
      this.(attempts := if attempts == 0 then 0 else attempts - 1)
    }

    predicate HasRetriesLeft() {
      attempts <= maxRetries
    }
  }

  /** A claim counts modulo 2^32 and a release stops at 0. Nothing else of the envelope changes. */
  lemma AttemptsWrap(e: Envelope)
    ensures e.CountAttempt() == e.(attempts := (e.attempts + 1) % 0x1_0000_0000)
    ensures e.TakeBackAttempt() == e.(attempts := if e.attempts > 0 then e.attempts - 1 else 0)
  {
  }

  /** The bytes of one stored element. An element that does not parse as an envelope keeps its
      text. Two elements have equal bytes exactly when they are equal values of this type. */
  datatype Raw = Message(envelope: Envelope) | Malformed(text: nat) {
    predicate HasId(id: nat) {
      Message? && envelope.id == id
    }
  }

  datatype Option<+T> = None | Some(value: T)
}
