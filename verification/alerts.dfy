/**
 * The alert service, which publishes the alert currently shown (or none), and
 * the alert modal that renders it and reports the user's choice.
 */
module Alerts {
  import opened Common

  datatype AlertType = Success | Error | Warning | Info

  datatype AlertData = AlertData(
    title: string, message: string, kind: AlertType,
    confirmText: Option<string>, cancelText: Option<string>, showCancel: Option<bool>)

  /** `text || fallback` for an optional argument. */
  function OrDefault(text: Option<string>, fallback: string): (r: string)
    ensures text.Some? && text.value != "" ==> r == text.value
    ensures text.None? || text.value == "" ==> r == fallback
  {
    if text.Some? && text.value != "" then text.value else fallback
  }

  /** `showSuccess`, `showError`, `showWarning`, `showInfo`: a single-button alert of the given type. */
  function Show(kind: AlertType, title: string, message: string, confirmText: Option<string>): (r: Option<AlertData>)
    ensures r.Some? && r.value.kind == kind && r.value.title == title && r.value.message == message
    ensures r.value.confirmText == Some(OrDefault(confirmText, "Aceptar"))
    ensures r.value.cancelText == None && r.value.showCancel == Some(false)
  {
    Some(AlertData(title, message, kind, Some(OrDefault(confirmText, "Aceptar")), None, Some(false)))
  }

  /** `showConfirm` as it publishes: an info alert with both buttons. */
  function ShowConfirm(title: string, message: string, confirmText: Option<string>, cancelText: Option<string>): (r: Option<AlertData>)
    ensures r.Some? && r.value.kind == Info && r.value.title == title && r.value.message == message
    ensures r.value.confirmText == Some(OrDefault(confirmText, "Confirmar"))
    ensures r.value.cancelText == Some(OrDefault(cancelText, "Cancelar"))
    ensures r.value.showCancel == Some(true)
  {
    Some(AlertData(title, message, Info, Some(OrDefault(confirmText, "Confirmar")), Some(OrDefault(cancelText, "Cancelar")), Some(true)))
  }

  /** `close`: nothing is shown. */
  function Close(): (r: Option<AlertData>)
    ensures r.None?
  {
    None
  }

  /** Every alert the service publishes has a non-empty confirm label, and a cancel button exactly when it asks for confirmation. */
  lemma PublishedAlertsWellFormed(kind: AlertType, title: string, message: string, confirmText: Option<string>, cancelText: Option<string>)
    ensures var a := Show(kind, title, message, confirmText).value;
      a.confirmText.value != "" && a.showCancel == Some(false) && a.cancelText.None?
    ensures var a := ShowConfirm(title, message, confirmText, cancelText).value;
      a.confirmText.value != "" && a.cancelText.Some? && a.cancelText.value != "" && a.showCancel == Some(true)
  {
  }

  /** The modal's input before any alert is bound. */
  const DefaultData := AlertData("", "", Info, None, None, None)

  /** `getIconClass`. */
  function GetIconClass(kind: AlertType): string {
    match kind
    case Success => "bi-check-circle-fill text-success"
    case Error => "bi-exclamation-triangle-fill text-danger"
    case Warning => "bi-exclamation-triangle-fill text-warning"
    case Info => "bi-info-circle-fill text-info"
  }

  const TriangleIcon := "bi-exclamation-triangle-fill"

  /** The four types get four different classes; errors and warnings share the triangle glyph and differ in colour. */
  lemma IconClassesDistinct(a: AlertType, b: AlertType)
    ensures GetIconClass(a) == GetIconClass(b) <==> a == b
    ensures TriangleIcon <= GetIconClass(a) <==> a == Error || a == Warning
    ensures GetIconClass(DefaultData.kind) == GetIconClass(Info)
  {
    if a.Success? || a.Info? {
      assert GetIconClass(a)[3] != TriangleIcon[3];
    }
  }

  /** The modal's outputs. */
  datatype AlertEvent = ConfirmEvent | CancelEvent | CloseEvent

  /** `onConfirm`, `onCancel`, `onClose`: the events each button emits, in order. */
  function OnConfirm(): seq<AlertEvent> { [ConfirmEvent, CloseEvent] }
  function OnCancel(): seq<AlertEvent> { [CancelEvent, CloseEvent] }
  function OnClose(): seq<AlertEvent> { [CloseEvent] }

  /** Whichever button is pressed, the modal emits at most one choice, and then exactly one close, last. */
  lemma EveryButtonCloses()
    ensures forall evs :: evs in {OnConfirm(), OnCancel(), OnClose()} ==>
      evs[|evs| - 1] == CloseEvent && CloseEvent !in evs[..|evs| - 1]
    ensures ConfirmEvent in OnConfirm() && ConfirmEvent !in OnCancel() + OnClose()
    ensures CancelEvent in OnCancel() && CancelEvent !in OnConfirm() + OnClose()
  {
    assert OnConfirm()[..1] == [ConfirmEvent];
    assert OnCancel()[..1] == [CancelEvent];
    assert OnClose()[..0] == [];
  }
}
