/** The theme preference as the component keeps it in the browser's key-value store:
    the stored string is what JavaScript's String(darkMode) gives, and loading
    compares it with "true". The store holds one key, so its content is modelled as
    the value under that key, or None when the key is absent. */
module Preference {
  import opened Wrappers

  /** The value read back at start-up: true exactly when the stored string is "true",
      so an absent key (null) or any other string gives false. */
  function Loaded(stored: Option<string>): (darkMode: bool)
    ensures darkMode <==> stored == Some("true")
    ensures stored == None ==> !darkMode
  {
    stored == Some("true")
  }

  /** The string setItem stores for the flag; loading it gives the flag back. */
  function Stored(darkMode: bool): (s: string)
    ensures Loaded(Some(s)) == darkMode
  {
    if darkMode then "true" else "false"
  }

  /** The flag and the stored value once the component has mounted. */
  datatype Mounted = Mounted(darkMode: bool, stored: Option<string>)

  /** Start-up with the effects in their declared order: the save effect runs first with
      the initial flag (false) and overwrites the stored value, then the load effect
      reads back what was just written. The stored preference plays no part. */
  function MountAsWritten(stored: Option<string>): (r: Mounted)
    ensures !r.darkMode && r.stored == Some("false")
  {
    var written := Some(Stored(false));
    Mounted(Loaded(written), written)
  }

  /** A saved dark theme is lost on reload when the effects run as declared. */
  lemma MountAsWrittenLosesDarkTheme()
    ensures Loaded(Some(Stored(true)))
    ensures !MountAsWritten(Some(Stored(true))).darkMode
  {
  }

  /** Start-up with the stored value read before anything is written: the flag is what
      the store held, and the value written back is that same flag. */
  function Mount(stored: Option<string>): (r: Mounted)
    ensures r.darkMode == Loaded(stored)
    ensures r.stored == Some(Stored(r.darkMode))
  {
    var darkMode := Loaded(stored);
    Mounted(darkMode, Some(Stored(darkMode)))
  }

  /** A flag that was saved comes back after a reload, and mounting again changes
      nothing further. */
  lemma MountRestoresSaved(darkMode: bool)
    ensures Mount(Some(Stored(darkMode))).darkMode == darkMode
    ensures Mount(Mount(Some(Stored(darkMode))).stored) == Mount(Some(Stored(darkMode)))
  {
  }
}
