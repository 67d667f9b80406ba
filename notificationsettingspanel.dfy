/**
 * frontend/src/components/NotificationSettings.tsx: the preferences panel. One
 * switch changes one preference; the button switches every preference on when
 * all are off and off otherwise. Each handler builds one new preferences
 * object and hands that same object to the store and to the notification
 * service.
 */
module NotificationSettingsPanel {
  import opened Wrappers
  import opened NotificationSlice
  import WebNotificationService

  /** `Object.values(preferences).every(value => !value)` (lines 53 and 71). */
  predicate AllDisabled(p: Preferences) {
    forall k :: k in p ==> !p[k]
  }

  /** The object `handlePreferenceChange` builds (lines 44-47). */
  function PreferenceChanged(p: Preferences, key: string, checked: bool): Preferences {
    p[key := checked]
  }

  /**
   * The object `handleToggleAllNotifications` builds as written (lines 53-57):
   * every key set to `!allDisabled`.
   */
  function ToggledAllAsWritten(p: Preferences): Preferences {
    var value := !AllDisabled(p);
    map k | k in p :: value
  }

  /**
   * The object the button evidently means to build: every key on when all
   * are off (the label then reads "turn all on"), every key off otherwise.
   */
  function ToggledAll(p: Preferences): Preferences {
    var value := AllDisabled(p);
    map k | k in p :: value
  }

  /** The button text (line 85). */
  function ButtonLabel(p: Preferences): string {
    if AllDisabled(p) then TurnAllOnText else TurnAllOffText
  }

  const TurnAllOnText: string := "Tüm Bildirimleri Aç"
  const TurnAllOffText: string := "Tüm Bildirimleri Kapat"

  /** One switch changes its own preference and no other; the key set only grows by that key. */
  lemma PreferenceChangedFacts(p: Preferences, key: string, checked: bool)
    ensures key in PreferenceChanged(p, key, checked) && PreferenceChanged(p, key, checked)[key] == checked
    ensures forall k :: k != key ==> (k in PreferenceChanged(p, key, checked) <==> k in p)
    ensures forall k :: k != key && k in p ==> PreferenceChanged(p, key, checked)[k] == p[k]
  {
  }

  /**
   * As written, the button never changes an all-off object and switches every
   * preference on otherwise, the opposite of what its label offers.
   */
  lemma ToggledAllAsWrittenFacts(p: Preferences)
    ensures ToggledAllAsWritten(p).Keys == p.Keys
    ensures AllDisabled(p) ==> ToggledAllAsWritten(p) == p
    ensures !AllDisabled(p) ==> forall k :: k in ToggledAllAsWritten(p) ==> ToggledAllAsWritten(p)[k]
  {
    var q := ToggledAllAsWritten(p);
    assert q.Keys == p.Keys;
    if AllDisabled(p) {
      forall k | k in p ensures q[k] == p[k] {
      }
    }
  }

  /** All preferences off: the "turn all on" button leaves every one of them off. */
  lemma TurnAllOnDoesNothing()
    ensures var p := map["matchStart" := false, "scoreChange" := false, "matchEnd" := false];
      ButtonLabel(p) == TurnAllOnText && ToggledAllAsWritten(p) == p && AllDisabled(ToggledAllAsWritten(p))
  {
    var p := map["matchStart" := false, "scoreChange" := false, "matchEnd" := false];
    ToggledAllAsWrittenFacts(p);
  }

  /**
   * The intended toggle keeps the keys and gives them one value: all on when
   * all were off, all off otherwise.
   */
  lemma ToggledAllFacts(p: Preferences)
    ensures ToggledAll(p).Keys == p.Keys
    ensures AllDisabled(p) ==> forall k :: k in ToggledAll(p) ==> ToggledAll(p)[k]
    ensures !AllDisabled(p) ==> AllDisabled(ToggledAll(p))
  {
    var q := ToggledAll(p);
    assert q.Keys == p.Keys;
  }

  /**
   * The button does what its label says: after "turn all on" every preference
   * is on, after "turn all off" every one is off; on a non-empty object two
   * presses come back to all-off from all-off.
   */
  lemma ToggleAllFollowsLabel(p: Preferences)
    ensures ButtonLabel(p) == TurnAllOnText ==> forall k :: k in ToggledAll(p) ==> ToggledAll(p)[k]
    ensures ButtonLabel(p) == TurnAllOffText ==> AllDisabled(ToggledAll(p))
    ensures p != map[] ==> (AllDisabled(ToggledAll(p)) <==> !AllDisabled(p))
    ensures AllDisabled(p) ==> ToggledAll(ToggledAll(p)) == p
  {
    ToggledAllFacts(p);
    ButtonLabelFacts(p);
    var q := ToggledAll(p);
    if p != map[] {
      var k :| k in p;
      assert k in q;
      if AllDisabled(p) {
        assert q[k];
      }
    }
    if AllDisabled(p) {
      if p != map[] {
        assert !AllDisabled(q);
        assert q.Keys == p.Keys;
        var r := ToggledAll(q);
        forall k | k in p ensures k in r && r[k] == p[k] {
        }
        assert r.Keys == p.Keys;
      } else {
        assert q == map[];
        assert ToggledAll(q) == map[];
      }
    }
  }

  /** The button offers to switch everything on exactly when everything is off. */
  lemma ButtonLabelFacts(p: Preferences)
    ensures ButtonLabel(p) == TurnAllOnText <==> AllDisabled(p)
    ensures ButtonLabel(p) == TurnAllOffText <==> !AllDisabled(p)
  {
    assert TurnAllOnText != TurnAllOffText by {
      assert |TurnAllOnText| != |TurnAllOffText|;
    }
  }

  /**
   * `handlePreferenceChange` (lines 43-50): the store gets the new object at
   * once, and the service is called with that same object; `putOk` and
   * `draw` are the service's outcomes.
   */
  method HandlePreferenceChange(service: WebNotificationService.NotificationService, key: string, checked: bool,
                                draw: nat -> WebNotificationService.Nibble, putOk: bool)
    returns (sent: Preferences)
    modifies service, service.store, service.storage
    ensures sent == PreferenceChanged(old(service.store.preferences), key, checked)
    ensures service.store.preferences == sent
    ensures putOk ==> service.storage.notificationPreferences == Some(sent)
  {
    sent := PreferenceChanged(service.store.preferences, key, checked);
    service.store.UpdatePreferences(sent);
    service.UpdatePreferences(sent, draw, putOk);
  }

  /**
   * `handleToggleAllNotifications` (lines 52-61) as written: the object with
   * every key set to `!allDisabled` goes to the store and to the service.
   */
  method HandleToggleAll(service: WebNotificationService.NotificationService,
                         draw: nat -> WebNotificationService.Nibble, putOk: bool)
    returns (sent: Preferences)
    modifies service, service.store, service.storage
    ensures sent == ToggledAllAsWritten(old(service.store.preferences))
    ensures service.store.preferences == sent
    ensures putOk ==> service.storage.notificationPreferences == Some(sent)
  {
    sent := ToggledAllAsWritten(service.store.preferences);
    service.store.UpdatePreferences(sent);
    service.UpdatePreferences(sent, draw, putOk);
  }

  /** The same handler with the object built as the button's label intends. */
  method HandleToggleAllCorrected(service: WebNotificationService.NotificationService,
                                  draw: nat -> WebNotificationService.Nibble, putOk: bool)
    returns (sent: Preferences)
    modifies service, service.store, service.storage
    ensures sent == ToggledAll(old(service.store.preferences))
    ensures service.store.preferences == sent
    ensures putOk ==> service.storage.notificationPreferences == Some(sent)
  {
    sent := ToggledAll(service.store.preferences);
    service.store.UpdatePreferences(sent);
    service.UpdatePreferences(sent, draw, putOk);
  }
}
