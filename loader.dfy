/**
 * components/Loader.tsx: the progress panel.  It shows the message the page
 * passes in when there is one; while there is none it rotates through a fixed
 * list of seven messages, one step per interval tick.  The 3-second interval
 * itself is replaced by explicit `Tick` calls.
 */
module Loader {
  import opened Strings

  // The rotation list, one message per constant: each literal then only enters
  // the proofs that ask for it.
  const FirstFrame := "Analyzing your video's first frame..."
  const MappingCommand := "Mapping your command to dynamic effects..."
  const ApplyingStyle := "Applying creative style and mood..."
  const SettingPace := "Setting the pace and intensity..."
  const RenderingFrames := "Rendering final video frames..."
  const TakesMinutes := "This can take a few minutes, " + "good things come to those who wait!"
  const AlmostThere := "Almost there, preparing your download..."

  /** The rotation list, in display order. */
  const Messages: seq<string> := [FirstFrame, MappingCommand, ApplyingStyle, SettingPace,
                                  RenderingFrames, TakesMinutes, AlmostThere]

  /** `(currentIndex + 1) % messages.length`, where `currentIndex` is the result
      of `indexOf`, so -1 for a message not in the list. */
  function NextIndex(current: int, length: nat): (next: nat)
    requires 0 < length && -1 <= current < length
    ensures next < length
    ensures current < length - 1 ==> next == current + 1
    ensures current == length - 1 ==> next == 0
  {
    (current + 1) % length
  }

  /** The message a rotation tick shows after `prev`, for any rotation list. */
  function NextIn(list: seq<string>, prev: string): (next: string)
    requires list != []
    ensures next in list
  {
    list[NextIndex(IndexOf(list, prev), |list|)]
  }

  /** The message a rotation tick shows after `prev`.  A message outside the
      list, such as one the page passed in earlier, restarts the rotation from
      the first message. */
  function NextMessage(prev: string): (next: string)
    ensures next in Messages
    ensures prev !in Messages ==> next == Messages[0]
  {
    NextIn(Messages, prev)
  }

  predicate Distinct(list: seq<string>)
  {
    forall i, j :: 0 <= i < j < |list| ==> list[i] != list[j]
  }

  /** Every entry of the list is found at its own position. */
  predicate Indexed(list: seq<string>)
  {
    forall i :: 0 <= i < |list| ==> IndexOf(list, list[i]) == i
  }

  /** A list without repetitions is indexed. */
  lemma DistinctIndexed(list: seq<string>)
    requires Distinct(list)
    ensures Indexed(list)
  {
  }

  /** In an indexed list a tick moves one step down the list, from the last
      entry to the first. */
  lemma NextInFollows(list: seq<string>, i: nat)
    requires Indexed(list) && i < |list|
    ensures NextIn(list, list[i]) == list[NextIndex(i, |list|)]
  {
  }

  /** The message shown after `n` ticks from `message`. */
  function AfterTicksIn(list: seq<string>, message: string, n: nat): string
    requires list != []
  {
    if n == 0 then message else NextIn(list, AfterTicksIn(list, message, n - 1))
  }

  /** The position reached from position `i` after `n` steps of `NextIndex`. */
  function IndexAfterTicks(i: nat, n: nat, length: nat): (j: nat)
    requires i < length
    ensures j < length
  {
    if n == 0 then i else NextIndex(IndexAfterTicks(i, n - 1, length), length)
  }

  /** From an entry of a list without repetitions, `n` ticks follow `n` steps
      of `NextIndex`. */
  lemma {:induction false} AfterTicksInRotates(list: seq<string>, i: nat, n: nat)
    requires Indexed(list) && i < |list|
    ensures AfterTicksIn(list, list[i], n) == list[IndexAfterTicks(i, n, |list|)]
  {
    if n > 0 {
      AfterTicksInRotates(list, i, n - 1);
      RotateTick(list, i, n);
    }
  }

  lemma RotateTick(list: seq<string>, i: nat, n: nat)
    requires Indexed(list) && i < |list| && n > 0
    requires AfterTicksIn(list, list[i], n - 1) == list[IndexAfterTicks(i, n - 1, |list|)]
    ensures AfterTicksIn(list, list[i], n) == list[IndexAfterTicks(i, n, |list|)]
  {
    NextInFollows(list, IndexAfterTicks(i, n - 1, |list|));
    TickSteps(list, list[i], i, n);
  }

  lemma TickSteps(list: seq<string>, message: string, i: nat, n: nat)
    requires list != [] && i < |list| && n > 0
    ensures AfterTicksIn(list, message, n) == NextIn(list, AfterTicksIn(list, message, n - 1))
    ensures IndexAfterTicks(i, n, |list|) == NextIndex(IndexAfterTicks(i, n - 1, |list|), |list|)
  {
  }

  /** Over seven positions, `n` steps from `i` land on `(i + n) % 7`. */
  lemma {:induction false} IndexAfterTicksModulo(i: nat, n: nat)
    requires i < 7
    ensures IndexAfterTicks(i, n, 7) == (i + n) % 7
  {
    if n == 0 {
      SmallModulo(i);
    } else {
      IndexAfterTicksModulo(i, n - 1);
      ModuloTick(i, n);
    }
  }

  lemma ModuloTick(i: nat, n: nat)
    requires i < 7 && n > 0 && IndexAfterTicks(i, n - 1, 7) == (i + n - 1) % 7
    ensures IndexAfterTicks(i, n, 7) == (i + n) % 7
  {
    IndexStep(i, n);
    ModuloStep(i + n - 1, i + n);
  }

  lemma SmallModulo(i: nat)
    requires i < 7
    ensures IndexAfterTicks(i, 0, 7) == i % 7
  {
  }

  lemma IndexStep(i: nat, n: nat)
    requires i < 7 && n > 0
    ensures IndexAfterTicks(i, n, 7) == (IndexAfterTicks(i, n - 1, 7) + 1) % 7
  {
  }

  lemma ModuloStep(a: nat, b: nat)
    requires b == a + 1
    ensures (a % 7 + 1) % 7 == b % 7
  {
  }

  /** The messages start with different two-letter openings, so no two are equal. */
  lemma MessagesDistinct()
    ensures |Messages| == 7 && Distinct(Messages) && Indexed(Messages)
  {
    FirstFrameOpening();
    MappingCommandOpening();
    ApplyingStyleOpening();
    SettingPaceOpening();
    RenderingFramesOpening();
    TakesMinutesOpening();
    AlmostThereOpening();
    DistinctIndexed(Messages);
  }

  // One message per lemma keeps each literal in a small proof.
  lemma FirstFrameOpening()
    ensures |FirstFrame| >= 2 && FirstFrame[0] == 'A' && FirstFrame[1] == 'n'
  {
  }

  lemma MappingCommandOpening()
    ensures |MappingCommand| >= 2 && MappingCommand[0] == 'M' && MappingCommand[1] == 'a'
  {
  }

  lemma ApplyingStyleOpening()
    ensures |ApplyingStyle| >= 2 && ApplyingStyle[0] == 'A' && ApplyingStyle[1] == 'p'
  {
  }

  lemma SettingPaceOpening()
    ensures |SettingPace| >= 2 && SettingPace[0] == 'S' && SettingPace[1] == 'e'
  {
  }

  lemma RenderingFramesOpening()
    ensures |RenderingFrames| >= 2 && RenderingFrames[0] == 'R' && RenderingFrames[1] == 'e'
  {
  }

  lemma TakesMinutesOpening()
    ensures |TakesMinutes| >= 2 && TakesMinutes[0] == 'T' && TakesMinutes[1] == 'h'
  {
  }

  lemma AlmostThereOpening()
    ensures |AlmostThere| >= 2 && AlmostThere[0] == 'A' && AlmostThere[1] == 'l'
  {
  }

  /** A tick moves one step down the list. */
  lemma NextMessageFollows(i: nat)
    requires i < |Messages|
    ensures NextMessage(Messages[i]) == Messages[(i + 1) % |Messages|]
  {
    MessagesDistinct();
    NextInFollows(Messages, i);
  }

  /** A tick from the last message wraps around to the first. */
  lemma NextMessageWraps()
    ensures NextMessage(Messages[|Messages| - 1]) == Messages[0]
  {
    NextMessageFollows(|Messages| - 1);
  }

  /** From a message of the list, `n` ticks move `n` steps around the list. */
  lemma RotationAdvances(i: nat, n: nat)
    requires i < |Messages|
    ensures AfterTicksIn(Messages, Messages[i], n) == Messages[(i + n) % |Messages|]
  {
    MessagesDistinct();
    AfterTicksInRotates(Messages, i, n);
    IndexAfterTicksModulo(i, n);
  }

  /** Seven ticks from a message of the list bring it back: the rotation has
      period seven. */
  lemma RotationCycles(i: nat)
    requires i < |Messages|
    ensures AfterTicksIn(Messages, Messages[i], |Messages|) == Messages[i]
  {
    RotationAdvances(i, |Messages|);
    FullRound(i);
  }

  lemma FullRound(i: nat)
    requires i < 7
    ensures (i + 7) % 7 == i
  {
  }

  /** The panel's state: the message on screen, and whether the rotation
      interval is running (it runs exactly while no message is passed in). */
  class Panel {
    var currentMessage: string
    var rotating: bool

    /** Mounting: the first message of the list, then the effect for the
        initial `message`. */
    constructor (message: string)
      ensures message != "" ==> currentMessage == message && !rotating
      ensures message == "" ==> currentMessage == Messages[0] && rotating
    {
      currentMessage := Messages[0];
      rotating := false;
      new;
      SetMessage(message);
    }

    /** The effect on a new `message`: a non-empty one is shown exactly as
        given and stops the rotation; an empty one keeps what is on screen and
        starts the rotation. */
    method SetMessage(message: string)
      modifies this
      ensures message != "" ==> currentMessage == message && !rotating
      ensures message == "" ==> currentMessage == old(currentMessage) && rotating
    {
      if message != "" {
        currentMessage := message;
        rotating := false;
      } else {
        rotating := true;
      }
    }

    /** One interval tick: the next message of the rotation.  Without a running
        interval there is no tick, and nothing changes. */
    method Tick()
      modifies this`currentMessage
      ensures rotating ==> currentMessage == NextMessage(old(currentMessage)) && currentMessage in Messages
      ensures !rotating ==> currentMessage == old(currentMessage)
    {
      if rotating {
        var index := IndexOf(Messages, currentMessage);
        currentMessage := Messages[(index + 1) % |Messages|];
      }
    }
  }
}
