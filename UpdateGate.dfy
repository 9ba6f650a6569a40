/** The update checks of the host process. Dev builds never configure the release feed,
    never install the updater's listeners and never schedule the automatic check; the
    manual check ("Check for Updates" in the Help menu, or the `check-for-updates` IPC
    call) shows a notice instead of querying the feed. The feed's answer is an input. */
module UpdateGate {
  import opened Wrappers
  import opened Text

  /** The repository the release feed points at (build-time constants). */
  datatype Repo = Repo(owner: string, name: string)

  /** How the feed query settled: resolved with the reported version (None when the
      result carries no update information), or rejected with an error message. */
  datatype FeedAnswer = Resolved(version: Option<string>) | Rejected(message: string)

  datatype DialogKind = Info | Error

  datatype Dialog = Dialog(kind: DialogKind, title: string, message: string, detail: string)

  /** What a manual check does: whether it queries the feed, and the dialog it shows. */
  datatype ManualCheck = ManualCheck(queriesFeed: bool, dialog: Option<Dialog>)

  function DisabledNotice(appVersion: string): Dialog {
    Dialog(Info, "Updates", "Auto-updates are disabled in development mode",
           "Current version: " + appVersion + "\n\nTo test updates, build a production version.")
  }

  function LatestVersionDialog(appVersion: string): Dialog {
    Dialog(Info, "No Updates Available", "You are using the latest version",
           "Current version: " + appVersion)
  }

  function CheckFailedDialog(repo: Repo, message: string): Dialog {
    Dialog(Error, "Update Check Failed", "Failed to check for updates",
           "Error: " + message + "\n\nPlease check your internet connection or visit:\nhttps://github.com/"
           + repo.owner + "/" + repo.name + "/releases")
  }

  /** `checkForUpdates` */
  function CheckForUpdates(isDev: bool, appVersion: string, repo: Repo, answer: FeedAnswer): (r: ManualCheck)
    ensures r.queriesFeed <==> !isDev
    ensures isDev ==> r.dialog == Some(DisabledNotice(appVersion))
    ensures !isDev ==> (r.dialog == Some(LatestVersionDialog(appVersion)) <==> answer == Resolved(Some(appVersion)))
    ensures !isDev ==> (r.dialog.Some? && r.dialog.value.kind == Error <==> answer.Rejected?)
    ensures !isDev && answer.Rejected? ==> r.dialog == Some(CheckFailedDialog(repo, answer.message))
    ensures !isDev && answer.Resolved? && answer.version != Some(appVersion) ==> r.dialog == None
  {
    if isDev then ManualCheck(false, Some(DisabledNotice(appVersion)))
    else
      match answer
      case Resolved(version) =>
        if version == Some(appVersion) then ManualCheck(true, Some(LatestVersionDialog(appVersion)))
        else ManualCheck(true, None)
      case Rejected(message) => ManualCheck(true, Some(CheckFailedDialog(repo, message)))
  }

  /** The `check-for-updates` IPC handler: starts the manual check and always replies
      `{success: true}`, whatever the check does. */
  function CheckForUpdatesHandler(isDev: bool, appVersion: string, repo: Repo, answer: FeedAnswer): (r: (ManualCheck, bool))
    ensures r.0 == CheckForUpdates(isDev, appVersion, repo, answer)
    ensures r.1
  {
    (CheckForUpdates(isDev, appVersion, repo, answer), true)
  }

  /** In a dev build the feed's answer cannot matter: the feed is not asked. */
  lemma DevIgnoresFeed(appVersion: string, repo: Repo, a: FeedAnswer, b: FeedAnswer)
    ensures CheckForUpdates(true, appVersion, repo, a) == CheckForUpdates(true, appVersion, repo, b)
  {
  }

  /** The failure dialog carries the error's own message. */
  lemma FailureNamesError(repo: Repo, message: string)
    ensures Contains(CheckFailedDialog(repo, message).detail, message)
  {
    var rest := "\n\nPlease check your internet connection or visit:\nhttps://github.com/"
                + repo.owner + "/" + repo.name + "/releases";
    assert CheckFailedDialog(repo, message).detail == "Error: " + message + rest;
    ContainsInfix("Error: ", message, rest);
  }

  /** What start-up does with the updater. */
  datatype UpdaterSetup = UpdaterSetup(feedConfigured: bool, listenersInstalled: bool, autoCheckScheduled: bool)

  /** Start-up wiring: the feed is configured (unless configuring it throws, which is only
      logged), the listeners installed and the delayed automatic check scheduled exactly
      when the build is not a dev build. */
  function Setup(isDev: bool, feedConfigThrows: bool): (s: UpdaterSetup)
    ensures s.listenersInstalled <==> !isDev
    ensures s.autoCheckScheduled <==> !isDev
    ensures s.feedConfigured <==> !isDev && !feedConfigThrows
    ensures s.feedConfigured ==> s.autoCheckScheduled
  {
    UpdaterSetup(!isDev && !feedConfigThrows, !isDev, !isDev)
  }

  /** The automatic check is a bare feed query: it shows neither the "latest version" nor
      the failure dialog, which belong to the manual check, so the feed's answer plays no
      part here; its outcome reaches the user only through the updater's events. */
  function AutomaticCheck(isDev: bool): (r: ManualCheck)
    ensures r.dialog == None
    ensures r.queriesFeed <==> Setup(isDev, false).autoCheckScheduled
  {
    ManualCheck(!isDev, None)
  }
}
