/** Vocabulary shared by the client screens: the colour names the component
    library accepts for chips and alerts, and the snackbar notices. */
module ClientUi {

  /** A palette colour or alert severity (`"success" | "info" | ...`). */
  datatype Color = Default | Primary | Secondary | Error | Info | Success | Warning

  /** One `enqueueSnackbar(message, { variant })` call. */
  datatype Notice = Notice(message: string, variant: Color)
}
