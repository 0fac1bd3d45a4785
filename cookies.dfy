// `getCookie` (app.js:85-96): the value of the first `name=` entry of
// `document.cookie`, read before `decodeURIComponent`.
module Cookies {
  import opened Wrappers
  import opened Text

  /** Index of the first part from `from` on that starts with `prefix` once trimmed
      (`|parts|` when none does): the entry `.map(trim).find(startsWith)` returns. */
  function FirstStarting(parts: seq<string>, prefix: string, from: nat): (k: nat)
    requires from <= |parts|
    decreases |parts| - from
    ensures from <= k <= |parts|
    ensures k < |parts| ==> StartsWith(Trim(parts[k]), prefix)
    ensures forall j :: from <= j < k ==> !StartsWith(Trim(parts[j]), prefix)
  {
    if from == |parts| then from
    else if StartsWith(Trim(parts[from]), prefix) then from
    else FirstStarting(parts, prefix, from + 1)
  }

  /** `getCookie(name)` over the cookie string `jar`; `None` is the `null` of "not found". */
  function GetCookie(jar: string, name: string): Option<string> {
    var nameEq := name + "=";
    var parts := Split(jar, ';');
    var k := FirstStarting(parts, nameEq, 0);
    if k < |parts| then Some(Trim(parts[k])[|nameEq|..]) else None
  }

  /** A value is found exactly when some `;`-separated entry, trimmed, starts with `name=`;
      it is then what follows `name=` in the first such entry, and holds no `;`. */
  lemma GetCookieSpec(jar: string, name: string)
    ensures GetCookie(jar, name).Some? <==>
      exists i :: 0 <= i < |Split(jar, ';')| && StartsWith(Trim(Split(jar, ';')[i]), name + "=")
    ensures GetCookie(jar, name).Some? ==>
      exists i :: 0 <= i < |Split(jar, ';')| && Trim(Split(jar, ';')[i]) == name + "=" + GetCookie(jar, name).value
        && forall j :: 0 <= j < i ==> !StartsWith(Trim(Split(jar, ';')[j]), name + "=")
  {
    var parts := Split(jar, ';');
    var nameEq := name + "=";
    var k := FirstStarting(parts, nameEq, 0);
    if k < |parts| {
      var e := Trim(parts[k]);
      assert e == e[..|nameEq|] + e[|nameEq|..];
      assert StartsWith(Trim(Split(jar, ';')[k]), name + "=");
    }
  }

  /** The value has no `;` and no whitespace at its end: splitting and trimming took them. */
  lemma {:induction false} GetCookieValueClean(jar: string, name: string)
    requires GetCookie(jar, name).Some?
    ensures ';' !in GetCookie(jar, name).value
    ensures var v := GetCookie(jar, name).value; v != [] ==> !IsWhitespace(v[|v| - 1])
  {
    var parts := Split(jar, ';');
    var nameEq := name + "=";
    var k := FirstStarting(parts, nameEq, 0);
    var p := parts[k];
    assert p in parts;
    TrimmedTailClean(p, |nameEq|);
  }

  /** A tail of a trimmed entry keeps the entry's lack of `;` and ends in no whitespace. */
  lemma TrimmedTailClean(p: string, off: nat)
    requires ';' !in p && off <= |Trim(p)|
    ensures ';' !in Trim(p)[off..]
    ensures var v := Trim(p)[off..]; v != [] ==> !IsWhitespace(v[|v| - 1])
  {
    TrimIsCore(p);
    var v := Trim(p)[off..];
    forall i | 0 <= i < |v| ensures v[i] != ';' {
      assert v[i] == p[LeadingWs(p) + off + i];
    }
  }

  /** The entry `document.cookie` starts with is read back, whatever follows it. */
  lemma FirstEntryWins(name: string, value: string, rest: string)
    requires name != [] && !IsWhitespace(name[0]) && ';' !in name
    requires value != [] && !IsWhitespace(value[|value| - 1]) && ';' !in value
    ensures GetCookie(name + "=" + value + ";" + rest, name) == Some(value)
  {
    var entry := name + "=" + value;
    var jar := entry + ";" + rest;
    assert jar == entry + [';'] + rest;
    assert ';' !in entry;
    IndexOfPrefix(entry, ';', rest);
    SplitRest(jar, ';');
    assert jar[..|entry|] == entry;
    TrimUntouched(entry);
    assert StartsWith(entry, name + "=");
    assert entry[|name + "="|..] == value;
  }

  /** A document without cookies has none of any name. */
  lemma EmptyJarHasNothing(name: string)
    ensures GetCookie("", name) == None
  {
    assert Split("", ';') == [""];
    assert Trim("") == "";
  }
}
