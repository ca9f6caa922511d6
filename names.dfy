/**
 * The local display name: how a raw name is sanitised, and what the
 * `displayName` property observer does with an assigned value.
 */
module Names {

  const MaxNameLength: nat := 15
  const DefaultName: string := "Guest"

  /** The characters a display name may keep (ASCII letters and digits in this model). */
  predicate IsAlphanumeric(c: char)
  {
    ('a' <= c <= 'z') || ('A' <= c <= 'Z') || ('0' <= c <= '9')
  }

  predicate AllAlphanumeric(s: string)
  {
    forall i :: 0 <= i < |s| ==> IsAlphanumeric(s[i])
  }

  /**
   * The alphanumeric characters of `s` in their original order; every other
   * character is dropped.
   */
  function KeepAlphanumerics(s: string): string
  {
    if s == [] then []
    else
      var tail := KeepAlphanumerics(s[1..]);
      if IsAlphanumeric(s[0]) then [s[0]] + tail else tail
  }

  /** Filtering never lengthens and leaves only alphanumerics. */
  lemma {:induction false} KeepAlphanumericsShape(s: string)
    ensures |KeepAlphanumerics(s)| <= |s|
    ensures AllAlphanumeric(KeepAlphanumerics(s))
  {
    if s != [] {
      KeepAlphanumericsShape(s[1..]);
    }
  }

  /** Filtering keeps a string that is alphanumeric throughout as it is. */
  lemma {:induction false} KeepAlphanumericsIdentity(s: string)
    requires AllAlphanumeric(s)
    ensures KeepAlphanumerics(s) == s
  {
    if s != [] {
      KeepAlphanumericsIdentity(s[1..]);
    }
  }

  /** Filtering leaves nothing exactly when there was nothing alphanumeric. */
  lemma {:induction false} KeepAlphanumericsEmpty(s: string)
    ensures KeepAlphanumerics(s) == [] <==> forall i :: 0 <= i < |s| ==> !IsAlphanumeric(s[i])
  {
    if s != [] {
      KeepAlphanumericsEmpty(s[1..]);
      assert forall i :: 1 <= i < |s| ==> s[i] == s[1..][i - 1];
    }
  }

  /**
   * The sanitised form of a raw name: its alphanumerics, cut to the first
   * fifteen, or "Guest" when none are left.
   */
  function Sanitize(name: string): (r: string)
    ensures 1 <= |r| <= MaxNameLength
    ensures AllAlphanumeric(r)
  {
    KeepAlphanumericsShape(name);
    var filtered := KeepAlphanumerics(name);
    var truncated := if |filtered| <= MaxNameLength then filtered else filtered[..MaxNameLength];
    if truncated == [] then DefaultName else truncated
  }

  /** A name with no alphanumeric character at all becomes "Guest". */
  lemma SanitizeFallsBack(name: string)
    requires forall i :: 0 <= i < |name| ==> !IsAlphanumeric(name[i])
    ensures Sanitize(name) == DefaultName
  {
    KeepAlphanumericsEmpty(name);
  }

  /** Otherwise the result is the name's own first alphanumerics, at most fifteen of them. */
  lemma SanitizeKeepsLeadingAlphanumerics(name: string)
    requires exists i :: 0 <= i < |name| && IsAlphanumeric(name[i])
    ensures Sanitize(name) <= KeepAlphanumerics(name)
    ensures |Sanitize(name)| == if |KeepAlphanumerics(name)| < MaxNameLength then |KeepAlphanumerics(name)| else MaxNameLength
  {
    KeepAlphanumericsEmpty(name);
  }

  /** A name is left alone by `Sanitize` exactly when it is already a valid display name. */
  lemma SanitizeFixedPoints(name: string)
    ensures Sanitize(name) == name <==> 1 <= |name| <= MaxNameLength && AllAlphanumeric(name)
  {
    if 1 <= |name| <= MaxNameLength && AllAlphanumeric(name) {
      KeepAlphanumericsIdentity(name);
    }
  }

  /** Sanitising twice is sanitising once. */
  lemma SanitizeIdempotent(name: string)
    ensures Sanitize(Sanitize(name)) == Sanitize(name)
  {
    SanitizeFixedPoints(Sanitize(name));
  }

  /** What one run of the `displayName` observer leaves behind. */
  datatype Observed = Observed(name: string, persistsAndRestarts: bool)

  /**
   * The observer as written: when the assigned value is not already
   * sanitised it stores the sanitised value and returns. An assignment made
   * inside a property's own observer does not run the observer again, so in
   * that case nothing is persisted and networking is not restarted.
   */
  function DidSetAsWritten(newValue: string, initializing: bool): (o: Observed)
    ensures o.name == Sanitize(newValue)
    ensures o.persistsAndRestarts <==> Sanitize(newValue) == newValue && !initializing
  {
    var sanitized := Sanitize(newValue);
    if sanitized != newValue then Observed(sanitized, false)
    else Observed(newValue, !initializing)
  }

  /** "Alice 42!" is stored as "Alice42", yet networking keeps running under the old name. */
  lemma DidSetAsWrittenSkipsRestart()
    ensures DidSetAsWritten("Alice 42!", false) == Observed("Alice42", false)
  {
    SanitizeExample();
  }

  /** The sanitised form of "Alice 42!". */
  lemma SanitizeExample()
    ensures Sanitize("Alice 42!") == "Alice42"
  {
    FilterExample();
  }

  /** The alphanumerics of "Alice 42!". */
  lemma FilterExample()
    ensures KeepAlphanumerics("Alice 42!") == "Alice42"
  {
    FilterExampleMiddle();
    KeepOne('l', "ice 42!", "ice42");
    KeepOne('A', "lice 42!", "lice42");
  }

  /** The alphanumerics of "ice 42!". */
  lemma FilterExampleMiddle()
    ensures KeepAlphanumerics("ice 42!") == "ice42"
  {
    FilterExampleTail();
    KeepOne('e', " 42!", "42");
    KeepOne('c', "e 42!", "e42");
    KeepOne('i', "ce 42!", "ce42");
  }

  /** The alphanumerics of " 42!". */
  lemma FilterExampleTail()
    ensures KeepAlphanumerics(" 42!") == "42"
  {
    KeepOne('!', "", "");
    KeepOne('2', "!", "");
    KeepOne('4', "2!", "2");
    KeepOne(' ', "42!", "42");
  }

  /** One step of the filter on a known tail. */
  lemma KeepOne(c: char, tail: string, kept: string)
    requires KeepAlphanumerics(tail) == kept
    ensures KeepAlphanumerics([c] + tail) == if IsAlphanumeric(c) then [c] + kept else kept
  {
    assert ([c] + tail)[1..] == tail;
  }


  /**
   * The observer as intended: the corrective re-assignment runs the observer
   * a second time, which then persists the name and restarts networking.
   */
  function DidSet(newValue: string, initializing: bool): (o: Observed)
    ensures o.name == Sanitize(newValue)
  {
    SanitizeIdempotent(newValue);
    var sanitized := Sanitize(newValue);
    if sanitized != newValue then DidSetAsWritten(sanitized, initializing)
    else Observed(newValue, !initializing)
  }

  /**
   * The corrective pass settles at once: the stored name is the sanitised
   * input and, outside initialisation, every assignment persists and restarts.
   */
  lemma DidSetSettlesInOnePass(newValue: string, initializing: bool)
    ensures DidSet(newValue, initializing) == Observed(Sanitize(newValue), !initializing)
  {
    SanitizeIdempotent(newValue);
  }
}
