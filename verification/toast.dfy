/** The toast provider (src/contexts/ToastContext.tsx): one toast record in
    state, replaced whole by `showToast` and hidden by `closeToast`; the
    `useToast` hook refuses to run outside a provider. An action is a rendered
    element, kept here as an opaque label. */
module Toasts {
  import opened Common

  datatype ToastType = Success | Error | Info
  datatype ToastState = ToastState(message: string, kind: ToastType, visible: bool, action: Option<string>)

  const OutsideProvider: string := "useToast deve ser usado dentro de um ToastProvider"

  /** The initial state: hidden, empty, "success", no action. */
  const Initial: ToastState := ToastState("", Success, false, None)

  /** `useToast`: the context value, or the error it throws. */
  datatype HookResult = ShowToastFn | Thrown(message: string)

  function UseToast(insideProvider: bool): (r: HookResult)
    ensures r.Thrown? <==> !insideProvider
    ensures r.Thrown? ==> r.message == OutsideProvider
  {
    if insideProvider then ShowToastFn else Thrown(OutsideProvider)
  }

  class ToastProvider {
    var toast: ToastState

    constructor ()
      ensures toast == Initial && !toast.visible
    {
      toast := Initial;
    }

    /** Replaces the whole record: a new toast supersedes any visible one. */
    method ShowToast(message: string, kind: ToastType, action: Option<string>)
      modifies this
      ensures toast == ToastState(message, kind, true, action)
      ensures Rendered() == Some((message, kind, action))
    {
      toast := ToastState(message, kind, true, action);
    }

    /** `{ ...prev, visible: false }`. */
    method CloseToast()
      modifies this
      ensures !toast.visible
      ensures toast.message == old(toast.message) && toast.kind == old(toast.kind) && toast.action == old(toast.action)
      ensures Rendered() == None
      ensures !old(toast.visible) ==> toast == old(toast)
    {
      toast := toast.(visible := false);
    }

    /** What the provider renders besides its children: the toast's message,
        type and action, exactly while it is visible. */
    function Rendered(): (r: Option<(string, ToastType, Option<string>)>)
      reads this
      ensures r.Some? <==> toast.visible
      ensures r.Some? ==> r.value == (toast.message, toast.kind, toast.action)
    {
      if toast.visible then Some((toast.message, toast.kind, toast.action)) else None
    }
  }

  /** Closing twice is closing once, and a toast shown after another one
      renders only the newer one. */
  method ToastSequence(m1: string, m2: string) returns (shown: Option<(string, ToastType, Option<string>)>, afterClose: ToastState, afterSecondClose: ToastState)
    ensures shown == Some((m2, Info, Some("Desfazer")))
    ensures afterSecondClose == afterClose && !afterClose.visible
  {
    var p := new ToastProvider();
    p.ShowToast(m1, Error, None);
    p.ShowToast(m2, Info, Some("Desfazer"));
    shown := p.Rendered();
    p.CloseToast();
    afterClose := p.toast;
    p.CloseToast();
    afterSecondClose := p.toast;
  }
}
