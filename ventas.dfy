/**
 * The sales page (js/pages/ventas.js): how a sale row shows its status, the
 * three outcomes of loading the table, and the status switch, a two-state
 * machine whose only transition is active to cancelled. Confirmation dialogs
 * and the status-change endpoint are inputs: whether the user confirmed, and
 * whether the awaited call succeeded.
 */
module Ventas {
  import opened JsSemantics

  /** A sale as listed; `estado` is the JavaScript truthiness of its status value. */
  datatype Venta = Venta(id_venta: int, fecha_hora: string, nombre_usuario: string, metodo_pago: string, total: string, estado: bool)

  datatype Badge = Activo | Inactivo

  /** The parts of a rendered row that carry the status: the switch's `checked` attribute and the badge. */
  datatype VentaRow = VentaRow(id_venta: int, switchChecked: bool, badge: Badge)

  function BadgeText(b: Badge): string
  {
    match b
    case Activo => "Activo"
    case Inactivo => "Inactivo"
  }

  /** `createVentaRow`: an active sale has a checked switch and the "Activo" badge, any other one neither. */
  function CreateVentaRow(v: Venta): (row: VentaRow)
    ensures row.id_venta == v.id_venta
    ensures row.switchChecked <==> v.estado
    ensures BadgeText(row.badge) == (if v.estado then "Activo" else "Inactivo")
  {
    VentaRow(v.id_venta, v.estado, if v.estado then Activo else Inactivo)
  }

  // ---------------------------------------------------------------------------
  // Loading the table

  datatype VentasBody = Loading | Rows(rows: seq<VentaRow>) | NoResults | LoadError

  /** The table after `getVentas` settles: rows for a non-empty list, "no results" for an empty or missing one, an error row when the call throws. */
  function TableFor(fetched: Call<Option<seq<Venta>>>): (b: VentasBody)
    ensures b.LoadError? <==> fetched.Threw?
    ensures b.NoResults? <==> fetched.Returned? && (fetched.value.None? || fetched.value.value == [])
    ensures b.Rows? <==> fetched.Returned? && fetched.value.Some? && fetched.value.value != []
    ensures b.Rows? ==>
      |b.rows| == |fetched.value.value| &&
      forall i :: 0 <= i < |b.rows| ==> b.rows[i] == CreateVentaRow(fetched.value.value[i])
  {
    match fetched
    case Threw => LoadError
    case Returned(ventas) =>
      if ventas.Some? && |ventas.value| > 0 then
        Rows(seq(|ventas.value|, i requires 0 <= i < |ventas.value| => CreateVentaRow(ventas.value[i])))
      else NoResults
  }

  class VentasTable {
    var body: VentasBody

    constructor ()
      ensures body == Loading
    {
      body := Loading;
    }

    /** `init`: without a table element nothing happens; otherwise the body shows "loading" and then the outcome of the call. */
    method Init(hasTable: bool, fetched: Call<Option<seq<Venta>>>)
      modifies this
      ensures hasTable ==> body == TableFor(fetched)
      ensures !hasTable ==> body == old(body)
    {
      if !hasTable {
        return;
      }
      body := Loading;
      match fetched {
        case Threw =>
          body := LoadError;
        case Returned(ventas) =>
          if ventas.Some? && |ventas.value| > 0 {
            body := Rows(seq(|ventas.value|, i requires 0 <= i < |ventas.value| => CreateVentaRow(ventas.value[i])));
          } else {
            body := NoResults;
          }
      }
    }
  }

  // ---------------------------------------------------------------------------
  // The status switch

  datatype Alert = AlreadyCancelled | CancelSucceeded | CancelFailed

  /** A call `ventaService.cambiarEstado(ventaId, estado)`. */
  datatype CambiarEstadoCall = CambiarEstado(ventaId: string, estado: bool)

  /**
   * What a change event leads to: the switch's final `checked`, whether the
   * confirmation was asked, the endpoint call made (if any), whether the list
   * was reloaded, and the message shown.
   */
  datatype SwitchOutcome = SwitchOutcome(checked: bool, confirmAsked: bool, call: Option<CambiarEstadoCall>, reloaded: bool, alert: Option<Alert>)

  /** The status before the click, inferred from the switch's new value (nothing stores it). */
  function PreviousStatus(checked: bool): bool { !checked }

  /**
   * `handleStatusSwitch` as a decision: from whether the event came from a
   * status switch, the switch's new `checked`, the user's answer to the
   * confirmation and the endpoint's success, to the outcome.
   */
  function StatusSwitchOutcome(isStatusSwitch: bool, ventaId: string, checked: bool, confirmed: bool, serverOk: bool): (o: SwitchOutcome)
    // events from anything but a status switch are ignored
    ensures !isStatusSwitch ==> o == SwitchOutcome(checked, false, None, false, None)
    // cancelled to active is refused at once: switch back off, no question, no call
    ensures isStatusSwitch && checked ==>
      !o.checked && !o.confirmAsked && o.call.None? && !o.reloaded && o.alert == Some(AlreadyCancelled)
    // the endpoint is called once, to cancel, exactly when an active sale's cancellation is confirmed
    ensures o.call.Some? <==> isStatusSwitch && !checked && confirmed
    ensures o.call.Some? ==> o.call.value == CambiarEstado(ventaId, false)
    // the list is reloaded exactly when the cancellation succeeded
    ensures o.reloaded <==> o.call.Some? && serverOk
    // otherwise an active sale's switch is put back on
    ensures isStatusSwitch && !checked ==> o.confirmAsked && (o.checked <==> !(confirmed && serverOk))
    ensures isStatusSwitch && !checked && confirmed ==> o.alert == Some(if serverOk then CancelSucceeded else CancelFailed)
    ensures isStatusSwitch && !checked && !confirmed ==> o.alert.None?
  {
    if !isStatusSwitch then SwitchOutcome(checked, false, None, false, None)
    else if PreviousStatus(checked) == false && checked == true then
      SwitchOutcome(false, false, None, false, Some(AlreadyCancelled))
    else if confirmed then
      if serverOk then SwitchOutcome(false, true, Some(CambiarEstado(ventaId, false)), true, Some(CancelSucceeded))
      else SwitchOutcome(true, true, Some(CambiarEstado(ventaId, false)), false, Some(CancelFailed))
    else SwitchOutcome(true, true, None, false, None)
  }

  /**
   * The state machine is one-way: the endpoint is never asked to activate a
   * sale, and a switch whose sale was cancelled before the click always ends
   * off.
   */
  lemma NoReactivation(isStatusSwitch: bool, ventaId: string, checked: bool, confirmed: bool, serverOk: bool)
    ensures var o := StatusSwitchOutcome(isStatusSwitch, ventaId, checked, confirmed, serverOk);
      (o.call.Some? ==> !o.call.value.estado) &&
      (isStatusSwitch && !PreviousStatus(checked) ==> !o.checked)
  {
  }

  /**
   * On a rendered row, the change event flips the switch, so the inferred
   * previous status is the sale's own status; the switch ends where it was
   * rendered unless an active sale's cancellation succeeded, in which case it
   * ends off and the list is reloaded.
   */
  lemma RenderedSwitchRoundTrip(v: Venta, confirmed: bool, serverOk: bool)
    ensures var row := CreateVentaRow(v);
      var o := StatusSwitchOutcome(true, IntToString(v.id_venta), !row.switchChecked, confirmed, serverOk);
      PreviousStatus(!row.switchChecked) == v.estado &&
      (o.checked == row.switchChecked <==> !(v.estado && confirmed && serverOk)) &&
      (o.reloaded <==> v.estado && confirmed && serverOk)
  {
  }

  /** A sale's status switch as the page holds it: its `checked` value changes in place. */
  class StatusSwitch {
    const isStatusSwitch: bool
    const ventaId: string
    var checked: bool

    constructor (isStatusSwitch: bool, ventaId: string, checked: bool)
      ensures this.isStatusSwitch == isStatusSwitch && this.ventaId == ventaId && this.checked == checked
    {
      this.isStatusSwitch := isStatusSwitch;
      this.ventaId := ventaId;
      this.checked := checked;
    }

    /** `handleStatusSwitch(event)`, run after the browser has flipped `checked`. */
    method HandleStatusSwitch(confirmed: bool, serverOk: bool)
      returns (confirmAsked: bool, call: Option<CambiarEstadoCall>, reloaded: bool, alert: Option<Alert>)
      modifies this
      ensures SwitchOutcome(checked, confirmAsked, call, reloaded, alert) ==
              StatusSwitchOutcome(isStatusSwitch, ventaId, old(checked), confirmed, serverOk)
    {
      confirmAsked, call, reloaded, alert := false, None, false, None;
      if !isStatusSwitch {
        return;
      }
      var previousStatus := !checked;
      var newStatus := checked;
      if previousStatus == false && newStatus == true {
        alert := Some(AlreadyCancelled);
        checked := false;
        return;
      }
      confirmAsked := true;
      if confirmed {
        call := Some(CambiarEstado(ventaId, false));
        if serverOk {
          alert := Some(CancelSucceeded);
          reloaded := true;
        } else {
          alert := Some(CancelFailed);
          checked := true;
        }
      } else {
        checked := true;
      }
    }
  }
}
