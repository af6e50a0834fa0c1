/** The string helpers of the review step: `prettify` for entry labels, the
    display text of an answer, and the download file name. */
module TextFormat {
  import opened Values

  /** `\w` without the `u` flag: ASCII letters, digits and underscore. */
  predicate IsWordChar(c: char) {
    ('a' <= c <= 'z') || ('A' <= c <= 'Z') || ('0' <= c <= '9') || c == '_'
  }

  /** `toUpperCase` on a word character: only `a`-`z` change. */
  function UpperWordChar(c: char): (u: char)
    ensures IsWordChar(c) <==> IsWordChar(u)
    ensures !('a' <= u <= 'z')
  {
    if 'a' <= c <= 'z' then (c as int - 32) as char else c
  }

  /** `key.replace(/_/g, ' ')`. */
  function SpaceUnderscores(key: string): (t: string)
    ensures |t| == |key|
    ensures forall i :: 0 <= i < |t| ==> t[i] == if key[i] == '_' then ' ' else key[i]
  {
    if key == [] then [] else [if key[0] == '_' then ' ' else key[0]] + SpaceUnderscores(key[1..])
  }

  /** A `\b\w` match: a word character not preceded by a word character. */
  predicate WordStart(t: string, i: nat)
    requires i < |t|
  {
    IsWordChar(t[i]) && (i == 0 || !IsWordChar(t[i - 1]))
  }

  /** `t.replace(/\b\w/g, c => c.toUpperCase())`, scanning left to right;
      `afterWord` says whether the character before `t` was a word character. */
  function CapitalizeWords(t: string, afterWord: bool): (r: string)
    ensures |r| == |t|
  {
    if t == [] then []
    else
      [if IsWordChar(t[0]) && !afterWord then UpperWordChar(t[0]) else t[0]]
      + CapitalizeWords(t[1..], IsWordChar(t[0]))
  }

  /** `prettify(key)`: underscores become spaces, then each word's first
      character is upper-cased. */
  function Prettify(key: string): string {
    CapitalizeWords(SpaceUnderscores(key), false)
  }

  lemma {:induction false} CapitalizeWordsAt(t: string, afterWord: bool, i: nat)
    requires i < |t|
    ensures |CapitalizeWords(t, afterWord)| == |t|
    ensures CapitalizeWords(t, afterWord)[i] ==
      if IsWordChar(t[i]) && !(if i == 0 then afterWord else IsWordChar(t[i - 1]))
      then UpperWordChar(t[i]) else t[i]
  {
    if i > 0 {
      CapitalizeWordsAt(t[1..], IsWordChar(t[0]), i - 1);
    } else if |t| > 1 {
      CapitalizeWordsAt(t[1..], IsWordChar(t[0]), 0);
    }
  }

  /** Pointwise: prettify keeps the length, and each character is the
      underscore-spaced one, upper-cased exactly where a word starts. */
  lemma PrettifyAt(key: string, i: nat)
    requires i < |key|
    ensures |Prettify(key)| == |key|
    ensures Prettify(key)[i] ==
      var t := SpaceUnderscores(key); if WordStart(t, i) then UpperWordChar(t[i]) else t[i]
  {
    CapitalizeWordsAt(SpaceUnderscores(key), false, i);
  }

  /** A prettified key holds no underscore and no word starting in lower case. */
  lemma PrettifyShape(key: string)
    ensures |Prettify(key)| == |key|
    ensures forall i :: 0 <= i < |key| ==> Prettify(key)[i] != '_'
    ensures forall i :: 0 <= i < |key| && WordStart(Prettify(key), i) ==> !('a' <= Prettify(key)[i] <= 'z')
  {
    var p := Prettify(key);
    forall i | 0 <= i < |key| ensures p[i] != '_' && (WordStart(p, i) ==> !('a' <= p[i] <= 'z')) {
      PrettifyAt(key, i);
      if i > 0 { PrettifyAt(key, i - 1); }
    }
  }

  /** Prettifying a label again changes nothing. */
  lemma PrettifyIdempotent(key: string)
    ensures Prettify(Prettify(key)) == Prettify(key)
  {
    var p := Prettify(key);
    PrettifyShape(key);
    var q := Prettify(p);
    PrettifyShape(p);
    assert SpaceUnderscores(p) == p;
    forall i | 0 <= i < |p| ensures q[i] == p[i] {
      PrettifyAt(p, i);
      PrettifyAt(key, i);
      if i > 0 { PrettifyAt(key, i - 1); }
    }
  }

  /** The review entry text of an answer: a list joined with `', '`,
      anything else as `String(v)`. */
  function Display(v: Value): string {
    match v
    case List(xs) => Join(xs, ", ")
    case _ => Text(v)
  }

  /** Reads a displayed list back: splits at each `", "`. */
  function SplitDisplayed(s: string): (items: seq<string>)
    ensures |items| >= 1
    decreases |s|
  {
    if s == [] then [[]]
    else if |s| >= 2 && s[0] == ',' && s[1] == ' ' then [[]] + SplitDisplayed(s[2..])
    else
      var rest := SplitDisplayed(s[1..]);
      [[s[0]] + rest[0]] + rest[1..]
  }

  lemma {:induction false} SplitDisplayedPrefix(x: string, t: string)
    requires forall i :: 0 <= i < |x| ==> x[i] != ','
    ensures SplitDisplayed(x + t) == [x + SplitDisplayed(t)[0]] + SplitDisplayed(t)[1..]
    decreases |x|
  {
    if x != [] {
      assert (x + t)[1..] == x[1..] + t;
      SplitDisplayedPrefix(x[1..], t);
      assert [x[0]] + (x[1..] + SplitDisplayed(t)[0]) == x + SplitDisplayed(t)[0];
    } else {
      var r := SplitDisplayed(t);
      assert x + t == t;
      assert x + r[0] == r[0];
      assert [r[0]] + r[1..] == r;
    }
  }

  /** The review text of a non-empty list whose items hold no comma reads back
      as that list: the review shows list answers without loss. */
  lemma {:induction false} DisplayListRoundTrip(xs: seq<string>)
    requires |xs| >= 1
    requires forall k, i :: 0 <= k < |xs| && 0 <= i < |xs[k]| ==> xs[k][i] != ','
    ensures SplitDisplayed(Display(List(xs))) == xs
  {
    if |xs| == 1 {
      SplitDisplayedPrefix(xs[0], []);
      assert xs[0] + [] == xs[0];
    } else {
      var rest := Join(xs[1..], ", ");
      assert Display(List(xs)) == xs[0] + (", " + rest);
      SplitDisplayedPrefix(xs[0], ", " + rest);
      assert (", " + rest)[2..] == rest;
      DisplayListRoundTrip(xs[1..]);
      assert xs[0] + [] == xs[0];
    }
  }

  /** The review list `onShow` builds: one entry per stored answer, its label
      the prettified key and its text the answer's display text. */
  function ReviewEntries(store: Store): (entries: map<string, (string, string)>)
    ensures entries.Keys == store.Keys
    ensures forall k :: k in entries ==> |entries[k].0| == |k| && '_' !in entries[k].0
    ensures forall k :: k in entries ==> entries[k].0 == Prettify(k)
    ensures forall k :: k in entries && store[k].Str? ==> entries[k].1 == store[k].s
    ensures forall k :: k in entries && store[k].Num? ==> entries[k].1 == IntText(store[k].n)
    ensures forall k :: k in entries && store[k].List? ==> entries[k].1 == Join(store[k].items, ", ")
  {
    forall k | k in store ensures |Prettify(k)| == |k| && '_' !in Prettify(k) {
      PrettifyShape(k);
    }
    map k | k in store :: (Prettify(k), Display(store[k]))
  }

  function Min(a: int, b: int): int { if a < b then a else b }

  /** `s.replace(/[:T]/g, '-')`. */
  function DashColonsAndT(s: string): (r: string)
    ensures |r| == |s|
    ensures forall i :: 0 <= i < |s| ==> r[i] == if s[i] == ':' || s[i] == 'T' then '-' else s[i]
  {
    if s == [] then [] else [if s[0] == ':' || s[0] == 'T' then '-' else s[0]] + DashColonsAndT(s[1..])
  }

  /** The download name `intake-<ts>.json`, `ts` being the first 19 characters
      of the ISO timestamp with `:` and `T` turned into `-`. */
  function DownloadName(iso: string): (name: string)
    ensures |name| == 12 + Min(19, |iso|)
    ensures name[..7] == "intake-" && name[|name| - 5..] == ".json"
    ensures forall i :: 7 <= i < |name| - 5 ==> name[i] != ':' && name[i] != 'T'
  {
    "intake-" + DashColonsAndT(iso[..Min(19, |iso|)]) + ".json"
  }

  /** `Date.prototype.toISOString` shape for four-digit years:
      `YYYY-MM-DDTHH:mm:ss.sssZ`. */
  predicate IsIsoTimestamp(s: string) {
    && |s| == 24
    && (forall i :: i in {0, 1, 2, 3, 5, 6, 8, 9, 11, 12, 14, 15, 17, 18, 20, 21, 22} ==> IsDigit(s[i]))
    && s[4] == '-' && s[7] == '-' && s[10] == 'T' && s[13] == ':' && s[16] == ':'
    && s[19] == '.' && s[23] == 'Z'
  }

  /** On an ISO timestamp the name is the date, then hours, minutes and
      seconds, all separated by dashes. */
  lemma DownloadNameOfTimestamp(iso: string)
    requires IsIsoTimestamp(iso)
    ensures DownloadName(iso) ==
      "intake-" + iso[..10] + "-" + iso[11..13] + "-" + iso[14..16] + "-" + iso[17..19] + ".json"
  {
    var d := DashColonsAndT(iso[..19]);
    assert d == iso[..10] + "-" + iso[11..13] + "-" + iso[14..16] + "-" + iso[17..19];
  }

  /** Timestamps that differ to the second give different file names. */
  lemma DownloadNameDistinguishesSeconds(a: string, b: string)
    requires IsIsoTimestamp(a) && IsIsoTimestamp(b) && a[..19] != b[..19]
    ensures DownloadName(a) != DownloadName(b)
  {
    var i :| 0 <= i < 19 && a[i] != b[i];
    assert DownloadName(a)[7 + i] != DownloadName(b)[7 + i];
  }
}
