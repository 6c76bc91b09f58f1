/**
 * The modal stack of the web UI (ui/src/components/modal/ModalProvider.tsx).
 * Opening, closing and clearing are functional updates of the previous
 * stack; rendering maps each entry to a dialog in stack order.
 */
module ModalStack {
  import opened Wrappers

  /** A modal body: a fixed node, or a function of the modal's index in the stack. */
  datatype Content = Node(id: int) | ByIndex(id: int)

  datatype Modal = Modal(
    content: Content,
    title: Option<string>,
    width: Option<string>,
    height: Option<string>,
    zIndex: Option<int>,
    closeOnBackdropClick: bool,
    disableCloseButton: bool)

  /** What one rendered dialog shows. */
  datatype Body = Shown(id: int) | ShownAt(id: int, index: int)

  datatype Dialog = Dialog(
    key: int,
    body: Body,
    title: Option<string>,
    width: string,
    height: string,
    zIndex: int,
    backdropCloses: bool,
    hasCloseButton: bool)

  const DefaultZIndex: int := 50
  const AutoSize: string := "auto"

  /** openModal: the new modal goes on top. */
  function Open(stack: seq<Modal>, m: Modal): (next: seq<Modal>)
    ensures |next| == |stack| + 1
    ensures next[..|stack|] == stack && next[|stack|] == m
  {
    stack + [m]
  }

  /** closeModal: `slice(0, -1)`, so only the top goes, and an empty stack stays empty. */
  function Close(stack: seq<Modal>): (next: seq<Modal>)
    ensures stack == [] ==> next == []
    ensures stack != [] ==> next + [stack[|stack| - 1]] == stack
  {
    if stack == [] then [] else stack[..|stack| - 1]
  }

  /** closeAllModals. */
  function CloseAll(stack: seq<Modal>): (next: seq<Modal>)
    ensures next == []
  {
    []
  }

  /** Closing undoes opening. */
  lemma CloseUndoesOpen(stack: seq<Modal>, m: Modal)
    ensures Close(Open(stack, m)) == stack
  {
    assert (stack + [m])[..|stack|] == stack;
  }

  /** Closing n times after opening n modals gives back the stack. */
  lemma {:induction false} CloseUndoesOpens(stack: seq<Modal>, ms: seq<Modal>)
    ensures CloseTimes(OpenAll(stack, ms), |ms|) == stack
  {
    if ms != [] {
      var last := ms[|ms| - 1];
      var init := ms[..|ms| - 1];
      assert init + [last] == ms;
      assert OpenAll(stack, ms) == Open(OpenAll(stack, init), last);
      CloseUndoesOpen(OpenAll(stack, init), last);
      CloseTimesStep(OpenAll(stack, ms), |ms|);
      CloseUndoesOpens(stack, init);
    }
  }

  function OpenAll(stack: seq<Modal>, ms: seq<Modal>): seq<Modal> {
    if ms == [] then stack else Open(OpenAll(stack, ms[..|ms| - 1]), ms[|ms| - 1])
  }

  function CloseTimes(stack: seq<Modal>, n: nat): seq<Modal> {
    if n == 0 then stack else CloseTimes(Close(stack), n - 1)
  }

  lemma {:induction false} CloseTimesStep(stack: seq<Modal>, n: nat)
    requires n > 0
    ensures CloseTimes(stack, n) == CloseTimes(Close(stack), n - 1)
  {
  }

  /** `||` with "auto": a missing or empty size is "auto". */
  function SizeOrAuto(size: Option<string>): (css: string)
    ensures css != []
    ensures size.Some? && size.value != [] ==> css == size.value
    ensures size.None? || size.value == [] ==> css == AutoSize
  {
    if size.Some? && size.value != [] then size.value else AutoSize
  }

  /** `??` with 50: only a missing z-index defaults, so 0 is kept. */
  function ZIndexOrDefault(z: Option<int>): (zi: int)
    ensures z.Some? ==> zi == z.value
    ensures z.None? ==> zi == DefaultZIndex
  {
    match z
    case Some(v) => v
    case None => DefaultZIndex
  }

  function RenderOne(m: Modal, index: int): (d: Dialog)
    ensures d.key == index
    ensures m.content.ByIndex? ==> d.body == ShownAt(m.content.id, index)
    ensures m.content.Node? ==> d.body == Shown(m.content.id)
    ensures d.title == m.title && d.width == SizeOrAuto(m.width) && d.height == SizeOrAuto(m.height)
    ensures d.zIndex == ZIndexOrDefault(m.zIndex)
    ensures d.hasCloseButton == !m.disableCloseButton && d.backdropCloses == m.closeOnBackdropClick
  {
    var body := match m.content
      case ByIndex(id) => ShownAt(id, index)
      case Node(id) => Shown(id);
    Dialog(index, body, m.title, SizeOrAuto(m.width), SizeOrAuto(m.height),
           ZIndexOrDefault(m.zIndex), m.closeOnBackdropClick, !m.disableCloseButton)
  }

  /** The stack renders in order, each dialog keyed by and given its own index. */
  function Render(stack: seq<Modal>): (dialogs: seq<Dialog>)
    ensures |dialogs| == |stack|
    ensures forall i :: 0 <= i < |stack| ==> dialogs[i] == RenderOne(stack[i], i)
  {
    seq(|stack|, i requires 0 <= i < |stack| => RenderOne(stack[i], i))
  }

  /** Opening a modal leaves every dialog below it as it was. */
  lemma OpenKeepsRenderedBelow(stack: seq<Modal>, m: Modal)
    ensures Render(Open(stack, m)) == Render(stack) + [RenderOne(m, |stack|)]
  {
  }

  /** Closing keeps every modal below the top where it was. */
  lemma CloseKeepsBelow(stack: seq<Modal>, i: int)
    requires 0 <= i < |stack| - 1
    ensures Close(stack)[i] == stack[i] && |Close(stack)| == |stack| - 1
  {
  }
}
