/** How a form on the auth screens is submitted. Each of those forms offers
    the same rule twice: in the keyboard's Done action of its last field and
    in the button's onClick. While the view model is loading, the button is
    replaced by a spinner; the Done key stays available. */
module SubmitPathModel {
  datatype SubmitPath = DoneKey | Button

  /** The path can be used: the Done key always, the button only while
      nothing is loading. */
  predicate Usable(path: SubmitPath, isLoading: bool) {
    path == DoneKey || !isLoading
  }
}
