/** The global alert dialog's store (apps/web-app/src/shared/store/alertStore.ts):
    whether the dialog is open, and the options it shows. */
module AlertStoreState {
  import opened JsText

  /** A callback handed to the dialog, known by the handler it stands for. The
      dialog only keeps it; running it is the page's business. */
  datatype AlertAction = Callback(handler: string)

  /** `AlertOptions`: the optional fields are `None` when the caller omits them. */
  datatype AlertOptions = AlertOptions(title: string, message: string,
                                       onCancel: Option<AlertAction>,
                                       onConfirm: Option<AlertAction>,
                                       cancelText: Option<string>,
                                       confirmText: Option<string>)

  /** The store's data as a value. */
  datatype AlertState = AlertState(isOpen: bool, options: AlertOptions)

  /** The options before any alert was shown. */
  const InitialOptions := AlertOptions("", "", None, None, Some("취소"), Some("확인"))

  /** `showAlert`: the new options replace the old ones wholesale (a field the
      caller leaves out is gone, not kept), and the dialog opens. */
  function Show(s: AlertState, options: AlertOptions): (r: AlertState)
    ensures r.isOpen
    ensures r.options == options
  {
    AlertState(true, options)
  }

  /** `hideAlert`: the dialog closes and keeps its options. */
  function Hide(s: AlertState): (r: AlertState)
    ensures !r.isOpen
    ensures r.options == s.options
  {
    s.(isOpen := false)
  }

  /** Whatever was shown before, showing an alert and closing it leaves the
      closed dialog with exactly the shown options; the earlier state is forgotten. */
  lemma ShowThenHide(s: AlertState, t: AlertState, options: AlertOptions)
    ensures Hide(Show(s, options)) == Hide(Show(t, options))
    ensures Hide(Show(s, options)) == AlertState(false, options)
  {
  }

  /** Closing twice is closing once, and closing never changes what an open
      dialog would show again. */
  lemma HideIdempotent(s: AlertState)
    ensures Hide(Hide(s)) == Hide(s)
    ensures Hide(s).options == s.options
  {
  }

  /** Showing an alert without the button labels drops the default labels. */
  lemma ShowDropsDefaults(title: string, message: string)
    ensures Show(AlertState(false, InitialOptions),
                 AlertOptions(title, message, None, None, None, None)).options.cancelText == None
  {
  }

  class AlertStore {
    var isOpen: bool
    var options: AlertOptions

    function State(): (s: AlertState)
      reads this
      ensures s.isOpen == isOpen && s.options == options
    {
      AlertState(isOpen, options)
    }

    /** The initial state: closed, empty title and message, labels 취소 and 확인. */
    constructor ()
      ensures State() == AlertState(false, InitialOptions)
      ensures !isOpen && options.title == "" && options.message == ""
      ensures options.cancelText == Some("취소") && options.confirmText == Some("확인")
    {
      isOpen := false;
      options := InitialOptions;
    }

    method ShowAlert(newOptions: AlertOptions)
      modifies this
      ensures State() == Show(old(State()), newOptions)
    {
      isOpen := true;
      options := newOptions;
    }

    method HideAlert()
      modifies this
      ensures State() == Hide(old(State()))
    {
      isOpen := false;
    }
  }

  /** The exported `showAlert` helper: the store's own action on the one store. */
  method ShowAlertOn(store: AlertStore, newOptions: AlertOptions)
    modifies store
    ensures store.State() == Show(old(store.State()), newOptions)
  {
    store.ShowAlert(newOptions);
  }
}
