/**
  The share-intake bridge of the Android activity: the two pending fields
  `sharedText` and `sharedUrl`, the intent handler that fills them from a
  `text/plain` ACTION_SEND share, and the `getSharedData` call that hands
  them to the Flutter side and clears them.

  `Received` is the specification of what an accepted share leaves in the
  fields; the lemmas below it state the classification rules. The class
  `MainActivity` updates its fields step by step: `HandleIntent` is proved
  against `Received`, and `OnMethodCall` is proved to answer with the fields
  as they were and then clear them.
*/
module ShareIntake {
  import opened Optional
  import opened UrlScan

  /** The value of `Intent.ACTION_SEND`. */
  const ActionSend: string := "android.intent.action.SEND"
  const TextPlain: string := "text/plain"
  const GetSharedDataMethod: string := "getSharedData"

  /** The parts of an Android intent the handler reads: the action, the MIME
      type, `EXTRA_TEXT` and `EXTRA_SUBJECT`; each may be null. */
  datatype Intent = Intent(
    action: Option<string>,
    mimeType: Option<string>,
    text: Option<string>,
    subject: Option<string>)

  /** The map with keys "text" and "url" that goes to the Flutter side, by
      pull (`getSharedData`) or by push (`receivedSharedData`). */
  datatype SharedData = SharedData(text: Option<string>, url: Option<string>)

  /** The answer to a method call on the channel. */
  datatype Reply = Success(data: SharedData) | NotImplemented

  /** The handler stores something only for an ACTION_SEND intent of type
      `text/plain` that carries `EXTRA_TEXT`. */
  predicate Accepts(intent: Intent) {
    intent.action == Some(ActionSend) && intent.mimeType == Some(TextPlain) && intent.text.Some?
  }

  /** Shared text that is itself a link: it starts with `http://` or `https://`. */
  predicate IsBareUrl(text: string)
    ensures IsBareUrl(text) ==> |text| >= |Http|
  {
    StartsWith(text, Http) || StartsWith(text, Https)
  }

  /** What the two fields hold after an accepted share of `text` with
      `subject`, when they held `prev` before. An accepted share always leaves
      a non-null text, and never clears a URL stored earlier. */
  function Received(prev: SharedData, text: string, subject: Option<string>): (r: SharedData)
    ensures r.text.Some?
    ensures prev.url.Some? ==> r.url.Some?
  {
    var stored :=
      if IsBareUrl(text) then SharedData(Some(""), Some(text))
      else SharedData(Some(text), if FindUrl(text).Some? then FindUrl(text) else prev.url);
    if subject.Some? && stored.text == Some("") then stored.(text := subject) else stored
  }

  /** A bare link becomes the URL; the text is empty unless a subject is given,
      which then labels the link. */
  lemma BareUrlShare(prev: SharedData, text: string, subject: Option<string>)
    requires IsBareUrl(text)
    ensures Received(prev, text, subject).url == Some(text)
    ensures Received(prev, text, subject).text == if subject.Some? then subject else Some("")
  {
  }

  /** Other text is kept as it is, and the URL becomes the leftmost-longest
      match of `https?://[^\s]+` in it. */
  lemma {:induction false} EmbeddedUrlShare(prev: SharedData, text: string, subject: Option<string>, i: int, j: int)
    requires !IsBareUrl(text)
    requires LeftmostLongest(text, i, j)
    ensures Received(prev, text, subject) == SharedData(Some(text), Some(text[i..j]))
  {
    LeftmostLongestIsFound(text, i, j);
  }

  /** Other text without any match leaves the URL field as it was: it is not
      cleared. */
  lemma {:induction false} PlainTextKeepsUrl(prev: SharedData, text: string, subject: Option<string>)
    requires !IsBareUrl(text)
    requires forall i, j :: !IsMatch(text, i, j)
    ensures Received(prev, text, subject).url == prev.url
  {
    FindUrlNoneIffNoMatch(text);
  }

  /** The stored text: the subject takes the place of an empty text (a bare
      link or empty input), and never of a non-empty one. */
  lemma SubjectOnlyForEmptyText(prev: SharedData, text: string, subject: Option<string>)
    ensures var base := if IsBareUrl(text) then "" else text;
      Received(prev, text, subject).text == if subject.Some? && base == "" then subject else Some(base)
  {
  }

  /** Whenever the stored URL changes, it comes from the shared text: it is
      the bare link itself, or else the leftmost-longest match in the text,
      which starts with `http://` or `https://` and holds no white space. */
  lemma {:induction false} NewUrlComesFromText(prev: SharedData, text: string, subject: Option<string>)
    requires Received(prev, text, subject).url != prev.url
    ensures var u := Received(prev, text, subject).url;
      u.Some? && (IsBareUrl(text) ==> u.value == text) &&
      (!IsBareUrl(text) ==> (StartsWith(u.value, Http) || StartsWith(u.value, Https)) && NoSpace(u.value)) &&
      (!IsBareUrl(text) ==> exists i, j :: LeftmostLongest(text, i, j) && u == Some(text[i..j]))
  {
    if !IsBareUrl(text) {
      FoundUrlShape(text);
      FoundIsLeftmostLongest(text);
    }
  }

  /** The Android activity, reduced to the two fields it keeps for the Flutter side. */
  class MainActivity {
    var sharedText: Option<string>
    var sharedUrl: Option<string>

    /** Both fields start out null. */
    constructor ()
      ensures Pending() == SharedData(None, None)
    {
      sharedText := None;
      sharedUrl := None;
    }

    /** The fields, as the map the Flutter side receives. */
    function Pending(): SharedData
      reads this
    {
      SharedData(sharedText, sharedUrl)
    }

    /** `handleIntent`: an accepted share updates the fields as `Received`
        says; any other intent changes nothing. When a Flutter engine is
        attached, an accepted share also pushes the fields just stored,
        without clearing them; `push` is that message. */
    method HandleIntent(intent: Intent, engineAttached: bool) returns (push: Option<SharedData>)
      modifies this
      ensures Accepts(intent) ==> Pending() == Received(old(Pending()), intent.text.value, intent.subject)
      ensures !Accepts(intent) ==> Pending() == old(Pending())
      ensures push == if Accepts(intent) && engineAttached then Some(Pending()) else None
    {
      push := None;
      if intent.action == Some(ActionSend) && intent.mimeType.Some? {
        if intent.mimeType.value == TextPlain {
          if intent.text.Some? {
            var received := intent.text.value;
            if StartsWith(received, Http) || StartsWith(received, Https) {
              sharedUrl := Some(received);
              sharedText := Some("");
            } else {
              sharedText := Some(received);
              var urlMatch := FindUrl(received);
              if urlMatch.Some? {
                sharedUrl := urlMatch;
              }
            }
            if intent.subject.Some? && sharedText == Some("") {
              sharedText := intent.subject;
            }
            if engineAttached {
              push := Some(SharedData(sharedText, sharedUrl));
            }
          }
        }
      }
    }

    /** The method-call handler: `getSharedData` answers with the fields and
        then sets both to null; any other method is not implemented and
        changes nothing. */
    method OnMethodCall(name: string) returns (reply: Reply)
      modifies this
      ensures name == GetSharedDataMethod ==>
        reply == Success(old(Pending())) && Pending() == SharedData(None, None)
      ensures name != GetSharedDataMethod ==>
        reply == NotImplemented && Pending() == old(Pending())
    {
      if name == GetSharedDataMethod {
        reply := Success(SharedData(sharedText, sharedUrl));
        sharedText := None;
        sharedUrl := None;
      } else {
        reply := NotImplemented;
      }
    }
  }

  /** Two fetches with no share in between: the first gets what was pending,
      the second gets nothing. */
  method FetchTwice(activity: MainActivity) returns (first: Reply, second: Reply)
    modifies activity
    ensures first == Success(old(activity.Pending()))
    ensures second == Success(SharedData(None, None))
    ensures activity.Pending() == SharedData(None, None)
  {
    first := activity.OnMethodCall(GetSharedDataMethod);
    second := activity.OnMethodCall(GetSharedDataMethod);
  }

  /** Two shares with no fetch in between, then a fetch. The fetched pair is
      the first share's result updated by the second; its text is the second
      share's alone, whatever the first stored, while the first share's link
      survives a second share that has none. The fetch then clears both fields. */
  method ShareTwice(activity: MainActivity, a: Intent, b: Intent) returns (reply: Reply)
    requires Accepts(a) && Accepts(b)
    modifies activity
    ensures reply == Success(Received(Received(old(activity.Pending()), a.text.value, a.subject),
                                      b.text.value, b.subject))
    ensures reply.data.text == Received(SharedData(None, None), b.text.value, b.subject).text
    ensures activity.Pending() == SharedData(None, None)
  {
    var _ := activity.HandleIntent(a, false);
    var _ := activity.HandleIntent(b, false);
    reply := activity.OnMethodCall(GetSharedDataMethod);
  }
}
