/**
  Speech support: the cached list of platform voices, the check for a Vietnamese
  voice that the shell runs at start-up, and the choice of voice for an utterance.
  The speech platform is not modelled: whether speech is available and what the
  platform's voice list currently holds are passed in by the caller.
 */
module AudioUtils {
  import opened Options

  /** A platform voice, reduced to the two properties the choice looks at. */
  datatype Voice = Voice(name: string, lang: string)

  /** `s` contains `sub` as a contiguous piece (JavaScript's `includes`). */
  predicate Includes(s: string, sub: string)
    decreases |s|
  {
    sub <= s || (|s| > 0 && Includes(s[1..], sub))
  }

  /** `Includes` holds exactly when `sub` starts at some position of `s`. */
  lemma {:induction false} IncludesAt(s: string, sub: string)
    ensures Includes(s, sub) <==> exists i :: 0 <= i <= |s| && sub <= s[i..]
    decreases |s|
  {
    if |s| > 0 {
      IncludesAt(s[1..], sub);
      if Includes(s[1..], sub) {
        var i :| 0 <= i <= |s[1..]| && sub <= s[1..][i..];
        assert s[1..][i..] == s[i + 1..];
      }
      if exists i :: 0 <= i <= |s| && sub <= s[i..] {
        var i :| 0 <= i <= |s| && sub <= s[i..];
        if i > 0 {
          assert s[1..][i - 1..] == s[i..];
          assert 0 <= i - 1 <= |s[1..]| && sub <= s[1..][i - 1..];
        }
      }
    } else {
      if exists i :: 0 <= i <= |s| && sub <= s[i..] {
        var i :| 0 <= i <= |s| && sub <= s[i..];
        assert i == 0;
      }
    }
  }

  /** The three levels of the preference: a Google Vietnamese voice, a `vi-VN` voice, any Vietnamese voice. */
  predicate IsGoogleVietnamese(v: Voice)
  {
    Includes(v.name, "Google") && Includes(v.lang, "vi")
  }

  predicate IsVietVN(v: Voice)
  {
    v.lang == "vi-VN"
  }

  predicate IsVietnamese(v: Voice)
  {
    Includes(v.lang, "vi")
  }

  /** The position of the first voice satisfying `p` (JavaScript's `find`), if any. */
  function FindFirst(vs: seq<Voice>, p: Voice -> bool): (r: Option<nat>)
    ensures r.Some? ==> r.value < |vs| && p(vs[r.value]) && forall j :: 0 <= j < r.value ==> !p(vs[j])
    ensures r.None? ==> forall j :: 0 <= j < |vs| ==> !p(vs[j])
  {
    if |vs| == 0 then None
    else if p(vs[0]) then Some(0)
    else
      match FindFirst(vs[1..], p)
      case None => None
      case Some(i) => Some(i + 1)
  }

  /** `voices.some(v => v.lang.includes('vi'))`. */
  predicate HasVietnamese(vs: seq<Voice>)
  {
    exists i :: 0 <= i < |vs| && IsVietnamese(vs[i])
  }

  /** The voice an utterance gets: the first match of the highest preference level that has one. */
  function ChooseVoice(vs: seq<Voice>): (r: Option<Voice>)
    ensures r.Some? ==> r.value in vs
  {
    match FindFirst(vs, IsGoogleVietnamese)
    case Some(i) => Some(vs[i])
    case None =>
      match FindFirst(vs, IsVietVN)
      case Some(i) => Some(vs[i])
      case None =>
        match FindFirst(vs, IsVietnamese)
        case Some(i) => Some(vs[i])
        case None => None
  }

  lemma VietVNIsVietnamese(v: Voice)
    requires IsVietVN(v)
    ensures IsVietnamese(v)
  {
    assert "vi" <= v.lang;
  }

  /** A chosen voice always speaks Vietnamese. */
  lemma ChosenIsVietnamese(vs: seq<Voice>)
    requires ChooseVoice(vs).Some?
    ensures IsVietnamese(ChooseVoice(vs).value)
  {
    if FindFirst(vs, IsGoogleVietnamese).None? {
      var second := FindFirst(vs, IsVietVN);
      if second.Some? {
        VietVNIsVietnamese(vs[second.value]);
      }
    }
  }

  /** When a Google Vietnamese voice exists, the first one in list order is chosen. */
  lemma GoogleFirst(vs: seq<Voice>, k: nat)
    requires k < |vs| && IsGoogleVietnamese(vs[k])
    requires forall j :: 0 <= j < k ==> !IsGoogleVietnamese(vs[j])
    ensures ChooseVoice(vs) == Some(vs[k])
  {
    var first := FindFirst(vs, IsGoogleVietnamese);
    assert first.Some?;
    assert first.value == k;
  }

  /** Failing that, the first `vi-VN` voice is chosen. */
  lemma VietVNSecond(vs: seq<Voice>, k: nat)
    requires forall j :: 0 <= j < |vs| ==> !IsGoogleVietnamese(vs[j])
    requires k < |vs| && IsVietVN(vs[k])
    requires forall j :: 0 <= j < k ==> !IsVietVN(vs[j])
    ensures ChooseVoice(vs) == Some(vs[k])
  {
    var second := FindFirst(vs, IsVietVN);
    assert second.Some?;
    assert second.value == k;
  }

  /** Failing both, the first voice whose language mentions `vi` is chosen. */
  lemma ViThird(vs: seq<Voice>, k: nat)
    requires forall j :: 0 <= j < |vs| ==> !IsGoogleVietnamese(vs[j]) && !IsVietVN(vs[j])
    requires k < |vs| && IsVietnamese(vs[k])
    requires forall j :: 0 <= j < k ==> !IsVietnamese(vs[j])
    ensures ChooseVoice(vs) == Some(vs[k])
  {
    var third := FindFirst(vs, IsVietnamese);
    assert third.Some?;
    assert third.value == k;
  }

  /** No voice is chosen exactly when no voice speaks Vietnamese. */
  lemma NoneIffNoVietnamese(vs: seq<Voice>)
    ensures ChooseVoice(vs).None? <==> !HasVietnamese(vs)
  {
    if HasVietnamese(vs) {
      var i :| 0 <= i < |vs| && IsVietnamese(vs[i]);
      assert FindFirst(vs, IsVietnamese).Some?;
    } else {
      if ChooseVoice(vs).Some? {
        ChosenIsVietnamese(vs);
      }
    }
  }

  /** Which voices-changed handler is installed on the platform. */
  datatype Handler = NoHandler | ReloadHandler | CheckHandler

  /** The module-level voice cache and the one outstanding voice check. */
  class VoiceCache {
    var voices: seq<Voice>
    var voicesLoaded: bool
    var handler: Handler
    /** A voice check is waiting for a voices-changed event, with its two-second timeout armed. */
    var pending: bool

    /** A waiting check is always backed by its own handler. */
    ghost predicate Valid()
      reads this
    {
      pending ==> handler == CheckHandler
    }

    /**
      Module initialisation: with speech available the voices are loaded once and,
      where the platform has the event, reloading is installed as its handler.
     */
    constructor (speechAvailable: bool, hasVoicesChangedEvent: bool, platformVoices: seq<Voice>)
      ensures Valid() && !pending
      ensures speechAvailable ==> voices == platformVoices && (voicesLoaded <==> |platformVoices| > 0)
      ensures !speechAvailable ==> voices == [] && !voicesLoaded
      ensures handler == (if speechAvailable && hasVoicesChangedEvent then ReloadHandler else NoHandler)
    {
      voices := if speechAvailable then platformVoices else [];
      voicesLoaded := speechAvailable && |platformVoices| > 0;
      handler := if speechAvailable && hasVoicesChangedEvent then ReloadHandler else NoHandler;
      pending := false;
    }

    /** Reload from the platform; the cache counts as loaded only once the list is non-empty. */
    method LoadVoices(speechAvailable: bool, platformVoices: seq<Voice>)
      requires Valid()
      modifies this
      ensures Valid()
      ensures voices == (if speechAvailable then platformVoices else old(voices))
      ensures voicesLoaded == (old(voicesLoaded) || (speechAvailable && |platformVoices| > 0))
      ensures handler == old(handler) && pending == old(pending)
    {
      if speechAvailable {
        voices := platformVoices;
        if |platformVoices| > 0 {
          voicesLoaded := true;
        }
      }
    }

    /**
      Start the Vietnamese-voice check. A loaded non-empty cache answers at once; with
      speech available a non-empty platform list is cached and answers at once;
      otherwise the check waits for a voices-changed event or its timeout. Without
      speech the answer is no. Every immediate answer is whether some voice of the
      list it looked at speaks Vietnamese.
     */
    method CheckVietnameseVoice(speechAvailable: bool, platformVoices: seq<Voice>) returns (answer: Option<bool>)
      requires Valid() && !pending
      modifies this
      ensures Valid()
      ensures voicesLoaded == old(voicesLoaded)
      ensures old(voicesLoaded) && |old(voices)| > 0 ==>
        answer == Some(HasVietnamese(old(voices))) && voices == old(voices)
        && handler == old(handler) && !pending
      ensures !(old(voicesLoaded) && |old(voices)| > 0) && speechAvailable && |platformVoices| > 0 ==>
        answer == Some(HasVietnamese(platformVoices)) && voices == platformVoices
        && handler == old(handler) && !pending
      ensures !(old(voicesLoaded) && |old(voices)| > 0) && speechAvailable && |platformVoices| == 0 ==>
        answer == None && voices == old(voices) && handler == CheckHandler && pending
      ensures !(old(voicesLoaded) && |old(voices)| > 0) && !speechAvailable ==>
        answer == Some(false) && voices == old(voices) && handler == old(handler) && !pending
    {
      if voicesLoaded && |voices| > 0 {
        return Some(HasVietnamese(voices));
      }
      if speechAvailable {
        if |platformVoices| > 0 {
          voices := platformVoices;
          return Some(HasVietnamese(platformVoices));
        }
        pending := true;
        handler := CheckHandler;
        return None;
      }
      return Some(false);
    }

    /**
      The platform's voices-changed event. The reload handler reloads. The check's
      handler disarms the timeout, caches the list, marks the cache loaded even when
      the list is empty, and settles a waiting check with whether some voice speaks
      Vietnamese; a check already settled is not settled again.
     */
    method VoicesChanged(platformVoices: seq<Voice>) returns (settled: Option<bool>)
      requires Valid()
      modifies this
      ensures Valid() && !pending && handler == old(handler)
      ensures old(handler) == NoHandler ==>
        settled == None && voices == old(voices) && voicesLoaded == old(voicesLoaded)
      ensures old(handler) == ReloadHandler ==>
        settled == None && voices == platformVoices
        && voicesLoaded == (old(voicesLoaded) || |platformVoices| > 0)
      ensures old(handler) == CheckHandler ==>
        && voices == platformVoices && voicesLoaded
        && settled == (if old(pending) then Some(HasVietnamese(platformVoices)) else None)
    {
      settled := None;
      match handler
      case NoHandler =>
      case ReloadHandler =>
        LoadVoices(true, platformVoices);
      case CheckHandler =>
        voices := platformVoices;
        voicesLoaded := true;
        if pending {
          settled := Some(HasVietnamese(platformVoices));
          pending := false;
        }
    }

    /** The two-second timeout of a waiting check fires and settles it with no. */
    method CheckTimeout() returns (settled: Option<bool>)
      requires Valid() && pending
      modifies this
      ensures Valid() && !pending
      ensures settled == Some(false)
      ensures voices == old(voices) && voicesLoaded == old(voicesLoaded) && handler == old(handler)
    {
      pending := false;
      settled := Some(false);
    }

    /**
      The voice an utterance is given (`None`: left unset). Without speech nothing is
      spoken. With speech an empty cache is reloaded first, and the voice is chosen
      from the cache as it then stands.
     */
    method Speak(speechAvailable: bool, platformVoices: seq<Voice>) returns (spoken: bool, voice: Option<Voice>)
      requires Valid()
      modifies this
      ensures Valid()
      ensures spoken == speechAvailable
      ensures !speechAvailable ==> voice == None && voices == old(voices) && voicesLoaded == old(voicesLoaded)
      ensures speechAvailable ==>
        && voices == (if |old(voices)| == 0 then platformVoices else old(voices))
        && voice == ChooseVoice(voices)
      ensures voicesLoaded == (old(voicesLoaded) || (speechAvailable && |old(voices)| == 0 && |platformVoices| > 0))
      ensures voice.Some? ==> voice.value in voices && IsVietnamese(voice.value)
      ensures handler == old(handler) && pending == old(pending)
    {
      if !speechAvailable {
        return false, None;
      }
      if |voices| == 0 {
        LoadVoices(true, platformVoices);
      }
      voice := ChooseVoice(voices);
      if voice.Some? {
        ChosenIsVietnamese(voices);
      }
      spoken := true;
    }
  }
}
