/** Shared vocabulary: optional values, store results and the store's error kinds. */
module Prelude {

  datatype Option<+T> = None | Some(value: T)

  /** Why a store call did not commit. `Duplicate` is a rejected unique-key insert. */
  datatype StoreError = Invalid | Conflict | NotFound | Duplicate | LeaseLost | FrequencyExceeded | DuplicateDelivery

  datatype Result<+T> = Ok(value: T) | Err(error: StoreError)

  /** Time is counted in nanoseconds; module Timestamps relates it to the stored text. */
  type Time = int

  /** A lower-case letter, then lower-case letters, digits, dots, underscores and dashes. */
  predicate StableKey(s: string) {
    && |s| > 0 && 'a' <= s[0] <= 'z'
    && forall i :: 0 <= i < |s| ==> 'a' <= s[i] <= 'z' || '0' <= s[i] <= '9' || s[i] == '_' || s[i] == '.' || s[i] == '-'
  }

  predicate FailureCode(s: string) {
    StableKey(s) && |s| <= 160
  }

  /** Which texts are codes, letter by letter. */
  lemma FailureCodeIff(s: string)
    ensures StableKey(s) <==>
              s != "" && 'a' <= s[0] <= 'z' && forall c :: c in s ==> 'a' <= c <= 'z' || '0' <= c <= '9' || c in {'_', '.', '-'}
    ensures FailureCode(s) <==> StableKey(s) && |s| <= 160
  {
    assert forall i :: 0 <= i < |s| ==> s[i] in s;
    if StableKey(s) {
      forall c | c in s ensures 'a' <= c <= 'z' || '0' <= c <= '9' || c in {'_', '.', '-'} {
        var i :| 0 <= i < |s| && s[i] == c;
      }
    }
  }

  /** Text that any key or code may continue with. */
  predicate KeyChars(s: string) {
    forall i :: 0 <= i < |s| ==> 'a' <= s[i] <= 'z' || s[i] == '_' || s[i] == '.'
  }

  lemma KeyCharsAppend(a: string, b: string)
    requires KeyChars(a) && KeyChars(b)
    ensures KeyChars(a + b)
  {
  }

  lemma JoinedCode(prefix: string, suffix: string)
    requires KeyChars(prefix) && KeyChars(suffix) && |prefix| + |suffix| <= 160 && |prefix| > 0 && 'a' <= prefix[0] <= 'z'
    ensures FailureCode(prefix + suffix)
  {
  }

  /** `column <= now` over timestamp text: the empty text precedes every timestamp. */
  predicate DueBy(at: Option<Time>, now: Time) {
    at.None? || at.value <= now
  }
}
