/** The user slice of the web store (frontend/src/store/slices/userSlice.ts): preferences, loading flag and error. */
module UserSlice {
  import opened Wrappers

  datatype Theme = Light | Dark

  datatype Flags = Flags(matches: bool, news: bool, system: bool)

  datatype UserPreferences = UserPreferences(language: string, theme: Theme, notifications: Flags)

  /** A `Partial<UserPreferences>` payload: `None` marks a key the payload does not have. */
  datatype PreferencesPatch = PreferencesPatch(language: Option<string>, theme: Option<Theme>, notifications: Option<Flags>)

  const EmptyPatch: PreferencesPatch := PreferencesPatch(None, None, None)

  const InitialPreferences: UserPreferences := UserPreferences("tr", Dark, Flags(true, true, true))

  /** `{ ...p, ...patch }`: a key of the payload replaces the same key, whole. */
  function Merge(p: UserPreferences, patch: PreferencesPatch): (r: UserPreferences)
    ensures r.language == patch.language.GetOr(p.language)
    ensures r.theme == patch.theme.GetOr(p.theme)
    ensures r.notifications == patch.notifications.GetOr(p.notifications)
  {
    UserPreferences(patch.language.GetOr(p.language), patch.theme.GetOr(p.theme),
                    patch.notifications.GetOr(p.notifications))
  }

  /** The patch that applies `a` and then `b`. */
  function Then(a: PreferencesPatch, b: PreferencesPatch): PreferencesPatch {
    PreferencesPatch(if b.language.Some? then b.language else a.language,
                     if b.theme.Some? then b.theme else a.theme,
                     if b.notifications.Some? then b.notifications else a.notifications)
  }

  class UserStore {
    var preferences: UserPreferences
    var loading: bool
    var error: Option<string>

    constructor()
      ensures preferences == InitialPreferences && !loading && error == None
    {
      preferences, loading, error := InitialPreferences, false, None;
    }

    method SetPreferences(patch: PreferencesPatch)
      modifies this
      ensures preferences == Merge(old(preferences), patch)
      ensures loading == old(loading) && error == old(error)
    {
      preferences := Merge(preferences, patch);
    }

    method SetLoading(b: bool)
      modifies this
      ensures loading == b && preferences == old(preferences) && error == old(error)
    {
      loading := b;
    }

    method SetError(e: Option<string>)
      modifies this
      ensures error == e && preferences == old(preferences) && loading == old(loading)
    {
      error := e;
    }
  }

  /**
   * An empty payload changes nothing, repeating a payload changes nothing more,
   * and two payloads in turn act as one combined payload.
   */
  lemma MergeLaws(p: UserPreferences, a: PreferencesPatch, b: PreferencesPatch)
    ensures Merge(p, EmptyPatch) == p
    ensures Merge(Merge(p, a), a) == Merge(p, a)
    ensures Merge(Merge(p, a), b) == Merge(p, Then(a, b))
  {
  }

  /** The merge is shallow: a `notifications` payload replaces all three flags, even those it repeats. */
  lemma MergeIsShallow(p: UserPreferences, f: Flags)
    ensures Merge(p, PreferencesPatch(None, None, Some(f))).notifications == f
    ensures Merge(p, PreferencesPatch(None, None, Some(f))).language == p.language
  {
  }
}
