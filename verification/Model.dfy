/** The value types shared by the layers of the daemon and by the frontend. */
module Model {
  import opened Basics

  const KIND_TEXT := "text"
  const KIND_IMAGE := "image"
  const KIND_AUDIO := "audio"
  const KIND_STICKER := "sticker"
  const KIND_OTHER := "other"

  datatype Message = Message(
    room: string, event: string, sender: string, display: string,
    body: seq<byte>, ts: int, own: bool, kind: string)

  datatype Room = Room(room: string, display: string, unread: nat, lastTs: int)

  predicate HasEvent(ms: seq<Message>, event: string) {
    exists i :: 0 <= i < |ms| && ms[i].event == event
  }

  /** How many messages the user did not send. */
  function CountOther(ms: seq<Message>): nat {
    if ms == [] then 0
    else CountOther(ms[..|ms| - 1]) + if ms[|ms| - 1].own then 0 else 1
  }

  lemma {:induction false} CountOtherConcat(a: seq<Message>, b: seq<Message>)
    ensures CountOther(a + b) == CountOther(a) + CountOther(b)
  {
    if b == [] {
      assert a + b == a;
    } else {
      assert (a + b)[..|a + b| - 1] == a + b[..|b| - 1];
      CountOtherConcat(a, b[..|b| - 1]);
    }
  }
}
