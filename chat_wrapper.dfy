/** The chat pane of a file: it polls the file's upload status and picks
    what to show from the query's loading flag and the status. */
module ChatWrapper {
  import opened Common
  import opened Database

  /** The poll period, in milliseconds. */
  const PollMillis: nat := 500

  /** `refetchInterval`: `None` stands for `false`, which stops polling. */
  function RefetchInterval(data: Option<UploadStatus>): (r: Option<nat>)
    ensures r.None? <==> data == Some(Success) || data == Some(Failed)
    ensures r.Some? ==> r.value == PollMillis
  {
    if data.Some? && (data.value == Success || data.value == Failed) then None else Some(PollMillis)
  }

  datatype View = LoadingView | ProcessingView | ErrorView(backHref: string) | ChatView(fileId: string)

  /** The chat input under the view: disabled, usable, or not rendered. */
  datatype Input = InputDisabled | InputEnabled | NoInput

  datatype Screen = Screen(view: View, input: Input)

  /** The if-return chain of the component. */
  function SelectScreen(fileId: string, isLoading: bool, data: Option<UploadStatus>): (s: Screen)
    ensures isLoading ==> s == Screen(LoadingView, InputDisabled)
    ensures !isLoading && data == Some(Processing) ==> s == Screen(ProcessingView, InputDisabled)
    ensures !isLoading && data == Some(Failed) ==> s == Screen(ErrorView("/dashboard"), NoInput)
    ensures !isLoading && data != Some(Processing) && data != Some(Failed) ==>
              s == Screen(ChatView(fileId), InputEnabled)
  {
    if isLoading then Screen(LoadingView, InputDisabled)
    else if data == Some(Processing) then Screen(ProcessingView, InputDisabled)
    else if data == Some(Failed) then Screen(ErrorView("/dashboard"), NoInput)
    else Screen(ChatView(fileId), InputEnabled)
  }

  /** Polling and the screen agree: once polling stops the screen is the
      error view or the chat, and the only screens that let the user type
      are chat views of this file. A PENDING status, or no status at all,
      shows the chat while polling goes on. */
  lemma PollingAndScreen(fileId: string, isLoading: bool, data: Option<UploadStatus>)
    ensures var s := SelectScreen(fileId, isLoading, data);
      && (!isLoading && RefetchInterval(data).None? ==> s.view.ErrorView? || s.view == ChatView(fileId))
      && (s.view.ProcessingView? ==> RefetchInterval(data) == Some(PollMillis))
      && (s.input == InputEnabled <==> s.view == ChatView(fileId))
      && (!isLoading && (data.None? || data == Some(Pending)) ==>
            s.view == ChatView(fileId) && RefetchInterval(data).Some?)
  {
  }
}
