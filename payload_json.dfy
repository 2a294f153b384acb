/**
 * The JSON text `json.dumps(payload, indent=2)` writes for the payload of
 * `construct_user_prompt`: an object of four string-keyed members whose last
 * member is the preferences object, laid out with two spaces of indentation
 * per level, "," between members and ": " between a key and its value.
 * Beside the writer is a decoder for exactly this layout.
 */
module PayloadJson {
  import opened Outcomes
  import opened JsonString

  /**
   * User preferences: a Python dict of strings to strings, as the list of
   * its items in insertion order, the order `json.dumps` writes them in.
   */
  type Preferences = seq<(string, string)>

  /** The four members of the payload, in the order they are written. */
  datatype Payload = Payload(
    targetLlm: string,
    bestPracticePromptStructure: string,
    rawUserPrompt: string,
    userPreferences: Preferences)

  const TargetLlmKey: string := "target_llm"
  const StructureKey: string := "best_practice_prompt_structure"
  const RawPromptKey: string := "raw_user_prompt"
  const PreferencesKey: string := "user_preferences"

  /** What comes between two members at the outer and at the inner level. */
  const OuterSeparator: string := ",\n  "
  const InnerSeparator: string := ",\n    "

  /** A member: its key as a string literal, ": ", its value's text. */
  function Member(key: string, valueText: string): (r: string) {
    EncodeString(key) + (": " + valueText)
  }

  /** The items of a non-empty preferences object, one per line at the inner level. */
  function DumpEntries(p: Preferences): (r: string)
    requires p != []
    ensures 0 < |r| && r[0] == Quote
    ensures EncodeString(p[0].0) <= r
  {
    var first := Member(p[0].0, EncodeString(p[0].1));
    if |p| == 1 then first else first + (InnerSeparator + DumpEntries(p[1..]))
  }

  /** The preferences object one level deep: `{}` when empty. */
  function DumpPreferences(p: Preferences): (r: string)
    ensures 2 <= |r| && r[0] == '{' && r[|r| - 1] == '}'
    ensures r == "{}" <==> p == []
  {
    if p == [] then "{}" else "{\n    " + (DumpEntries(p) + "\n  }")
  }

  /**
   * `json.dumps(payload, indent=2)`. The text always ends with the
   * `user_preferences` member and the closing brace, so that member is never
   * absent.
   */
  function Dumps(p: Payload): (r: string)
    ensures EndsWith(r, Member(PreferencesKey, DumpPreferences(p.userPreferences)) + "\n}")
  {
    ObjectEnd("{\n  ", OuterSeparator,
      Member(TargetLlmKey, EncodeString(p.targetLlm)),
      Member(StructureKey, EncodeString(p.bestPracticePromptStructure)),
      Member(RawPromptKey, EncodeString(p.rawUserPrompt)),
      Member(PreferencesKey, DumpPreferences(p.userPreferences)) + "\n}");
    "{\n  " + (
      Member(TargetLlmKey, EncodeString(p.targetLlm)) + (OuterSeparator + (
      Member(StructureKey, EncodeString(p.bestPracticePromptStructure)) + (OuterSeparator + (
      Member(RawPromptKey, EncodeString(p.rawUserPrompt)) + (OuterSeparator + (
      Member(PreferencesKey, DumpPreferences(p.userPreferences)) + "\n}")))))))
  }

  /** Consumes the literal `lit` at the start of `t`. */
  function Expect(lit: string, t: string): (r: Option<string>)
    ensures r.Some? <==> lit <= t
    ensures r.Some? ==> t == lit + r.value
  {
    if lit <= t then Some(t[|lit|..]) else None
  }

  /** A member with a string key and a string value; the key, the value and what follows. */
  function DecodeStringMember(t: string): (r: Option<(string, string, string)>)
    ensures r.Some? ==> |r.value.2| < |t|
  {
    var (key, t1) :- DecodeString(t);
    var t2 :- Expect(": ", t1);
    var (value, t3) :- DecodeString(t2);
    Some((key, value, t3))
  }

  /** The items of a preferences object and the text after the last one. */
  function DecodeEntries(t: string): (r: Option<(Preferences, string)>)
    ensures r.Some? ==> r.value.0 != [] && |r.value.1| < |t|
    decreases |t|
  {
    var (key, value, t1) :- DecodeStringMember(t);
    if InnerSeparator <= t1 then
      var (more, rest) :- DecodeEntries(t1[|InnerSeparator|..]);
      Some(([(key, value)] + more, rest))
    else
      Some(([(key, value)], t1))
  }

  /** A preferences object one level deep and the text after it. */
  function DecodePreferences(t: string): (r: Option<(Preferences, string)>)
    ensures r.Some? ==> |r.value.1| < |t|
  {
    if "{}" <= t then Some(([], t[2..]))
    else
      var t1 :- Expect("{\n    ", t);
      var (p, t2) :- DecodeEntries(t1);
      var rest :- Expect("\n  }", t2);
      Some((p, rest))
  }

  /** A separator, then a member whose value is a string. */
  function DecodeStringMemberAfter(separator: string, t: string): (r: Option<(string, string, string)>)
    ensures r.Some? ==> |r.value.2| < |t|
  {
    var t1 :- Expect(separator, t);
    DecodeStringMember(t1)
  }

  /** A separator, then a member whose value is a preferences object. */
  function DecodePreferencesMemberAfter(separator: string, t: string): (r: Option<(string, Preferences, string)>)
    ensures r.Some? ==> |r.value.2| < |t|
  {
    var t1 :- Expect(separator, t);
    var (key, t2) :- DecodeString(t1);
    var t3 :- Expect(": ", t2);
    var (prefs, rest) :- DecodePreferences(t3);
    Some((key, prefs, rest))
  }

  /**
   * Reads a payload laid out as `Dumps` lays it out: the four keys, in this
   * order, and nothing after the closing brace.
   */
  function DecodePayload(t: string): (r: Option<Payload>) {
    var (k1, targetLlm, t1) :- DecodeStringMemberAfter("{\n  ", t);
    var (k2, structure, t2) :- DecodeStringMemberAfter(OuterSeparator, t1);
    var (k3, rawPrompt, t3) :- DecodeStringMemberAfter(OuterSeparator, t2);
    var (k4, prefs, t4) :- DecodePreferencesMemberAfter(OuterSeparator, t3);
    if k1 == TargetLlmKey && k2 == StructureKey && k3 == RawPromptKey && k4 == PreferencesKey && t4 == "\n}"
    then Some(Payload(targetLlm, structure, rawPrompt, prefs))
    else None
  }

  lemma ExpectPrefix(lit: string, rest: string)
    ensures Expect(lit, lit + rest) == Some(rest)
  {
    assert (lit + rest)[|lit|..] == rest;
  }

  lemma MemberThen(key: string, valueText: string, rest: string)
    ensures Member(key, valueText) + rest == EncodeString(key) + (": " + (valueText + rest))
  {
  }

  /** `DecodeStringMember` from what `DecodeString` gives at its two string literals. */
  lemma DecodeStringMemberStep(t: string, key: string, value: string, rest: string)
    requires DecodeString(t) == Some((key, ": " + (EncodeString(value) + rest)))
    requires DecodeString(EncodeString(value) + rest) == Some((value, rest))
    ensures DecodeStringMember(t) == Some((key, value, rest))
  {
    ExpectPrefix(": ", EncodeString(value) + rest);
  }

  lemma DecodeStringMemberOf(key: string, value: string, rest: string)
    ensures DecodeStringMember(Member(key, EncodeString(value)) + rest) == Some((key, value, rest))
  {
    MemberThen(key, EncodeString(value), rest);
    DecodeEncodeString(key, ": " + (EncodeString(value) + rest));
    DecodeEncodeString(value, rest);
    DecodeStringMemberStep(Member(key, EncodeString(value)) + rest, key, value, rest);
  }

  lemma HeadTail<T>(s: seq<T>)
    requires s != []
    ensures [s[0]] + s[1..] == s
  {
  }

  lemma Reassociate(a: string, b: string, c: string, rest: string)
    ensures a + (b + c) + rest == a + (b + (c + rest))
  {
  }

  /** One step of `DecodeEntries`: an item that ends the list. */
  lemma DecodeLastEntry(t: string, key: string, value: string, rest: string)
    requires DecodeStringMember(t) == Some((key, value, rest))
    requires rest == [] || rest[0] != ','
    ensures DecodeEntries(t) == Some(([(key, value)], rest))
  {
    assert !(InnerSeparator <= rest);
  }

  /** One step of `DecodeEntries`: an item followed by more items. */
  lemma DecodeNextEntry(t: string, key: string, value: string, tail: string, more: Preferences, rest: string)
    requires DecodeStringMember(t) == Some((key, value, InnerSeparator + tail))
    requires DecodeEntries(tail) == Some((more, rest))
    ensures DecodeEntries(t) == Some(([(key, value)] + more, rest))
  {
    ExpectPrefix(InnerSeparator, tail);
  }

  /** The items of a preferences object read back, when what follows does not continue the list. */
  lemma {:induction false} DecodeEntriesOf(p: Preferences, rest: string)
    requires p != []
    requires rest == [] || rest[0] != ','
    ensures DecodeEntries(DumpEntries(p) + rest) == Some((p, rest))
  {
    var (key, value) := p[0];
    var first := Member(key, EncodeString(value));
    if |p| == 1 {
      assert DumpEntries(p) == first;
      DecodeStringMemberOf(key, value, rest);
      DecodeLastEntry(DumpEntries(p) + rest, key, value, rest);
      assert p == [(key, value)];
    } else {
      var tail := DumpEntries(p[1..]) + rest;
      assert DumpEntries(p) == first + (InnerSeparator + DumpEntries(p[1..]));
      Reassociate(first, InnerSeparator, DumpEntries(p[1..]), rest);
      DecodeStringMemberOf(key, value, InnerSeparator + tail);
      DecodeEntriesOf(p[1..], rest);
      DecodeNextEntry(DumpEntries(p) + rest, key, value, tail, p[1..], rest);
      HeadTail(p);
    }
  }

  lemma DecodePreferencesOf(p: Preferences, rest: string)
    requires rest == [] || rest[0] == '\n'
    ensures DecodePreferences(DumpPreferences(p) + rest) == Some((p, rest))
  {
    var t := DumpPreferences(p) + rest;
    if p == [] {
      assert t[2..] == rest;
    } else {
      Reassociate("{\n    ", DumpEntries(p), "\n  }", rest);
      assert !("{}" <= t) by { assert t[1] == '\n'; }
      ExpectPrefix("{\n    ", DumpEntries(p) + ("\n  }" + rest));
      DecodeEntriesOf(p, "\n  }" + rest);
      ExpectPrefix("\n  }", rest);
    }
  }

  /** A separator, then a member with a string value, read back. */
  lemma DecodeMemberAfter(separator: string, key: string, value: string, rest: string)
    ensures DecodeStringMemberAfter(separator, separator + (Member(key, EncodeString(value)) + rest))
      == Some((key, value, rest))
  {
    ExpectPrefix(separator, Member(key, EncodeString(value)) + rest);
    DecodeStringMemberOf(key, value, rest);
  }

  /** The last member, the preferences object, read back up to the closing brace. */
  lemma DecodePreferencesMemberOf(prefs: Preferences)
    ensures DecodePreferencesMemberAfter(OuterSeparator,
      OuterSeparator + (Member(PreferencesKey, DumpPreferences(prefs)) + "\n}"))
      == Some((PreferencesKey, prefs, "\n}"))
  {
    var prefsText := DumpPreferences(prefs);
    MemberThen(PreferencesKey, prefsText, "\n}");
    ExpectPrefix(OuterSeparator, Member(PreferencesKey, prefsText) + "\n}");
    DecodeEncodeString(PreferencesKey, ": " + (prefsText + "\n}"));
    ExpectPrefix(": ", prefsText + "\n}");
    DecodePreferencesOf(prefs, "\n}");
  }

  /** `DecodePayload` from what each of its four member readers gives. */
  lemma DecodePayloadSteps(t: string, t1: string, t2: string, t3: string, p: Payload)
    requires DecodeStringMemberAfter("{\n  ", t) == Some((TargetLlmKey, p.targetLlm, t1))
    requires DecodeStringMemberAfter(OuterSeparator, t1) == Some((StructureKey, p.bestPracticePromptStructure, t2))
    requires DecodeStringMemberAfter(OuterSeparator, t2) == Some((RawPromptKey, p.rawUserPrompt, t3))
    requires DecodePreferencesMemberAfter(OuterSeparator, t3) == Some((PreferencesKey, p.userPreferences, "\n}"))
    ensures DecodePayload(t) == Some(p)
  {
  }

  /** Round trip: the decoder reads back every member of the payload, in order. */
  lemma DecodeDumps(p: Payload)
    ensures DecodePayload(Dumps(p)) == Some(p)
  {
    var r3 := OuterSeparator + (Member(PreferencesKey, DumpPreferences(p.userPreferences)) + "\n}");
    var r2 := OuterSeparator + (Member(RawPromptKey, EncodeString(p.rawUserPrompt)) + r3);
    var r1 := OuterSeparator + (Member(StructureKey, EncodeString(p.bestPracticePromptStructure)) + r2);
    DecodeMemberAfter("{\n  ", TargetLlmKey, p.targetLlm, r1);
    DecodeMemberAfter(OuterSeparator, StructureKey, p.bestPracticePromptStructure, r2);
    DecodeMemberAfter(OuterSeparator, RawPromptKey, p.rawUserPrompt, r3);
    DecodePreferencesMemberOf(p.userPreferences);
    DecodePayloadSteps(Dumps(p), r1, r2, r3, p);
  }

  /** Two payloads with the same text are the same payload. */
  lemma DumpsInjective(p: Payload, q: Payload)
    requires Dumps(p) == Dumps(q)
    ensures p == q
  {
    DecodeDumps(p);
    DecodeDumps(q);
  }

  /** Text made only of printable ASCII characters and line breaks. */
  predicate AsciiText(s: string) {
    forall c :: c in s ==> Printable(c) || c == '\n'
  }

  lemma AsciiConcat(a: string, b: string)
    requires AsciiText(a) && AsciiText(b)
    ensures AsciiText(a + b)
  {
  }

  lemma EncodeStringAscii(s: string)
    ensures AsciiText(EncodeString(s))
  {
    EncodeStringPrintable(s);
  }

  lemma MemberAscii(key: string, valueText: string)
    requires AsciiText(valueText)
    ensures AsciiText(Member(key, valueText))
  {
    EncodeStringAscii(key);
  }

  lemma {:induction false} DumpEntriesAscii(p: Preferences)
    requires p != []
    ensures AsciiText(DumpEntries(p))
  {
    EncodeStringAscii(p[0].1);
    MemberAscii(p[0].0, EncodeString(p[0].1));
    if |p| > 1 {
      DumpEntriesAscii(p[1..]);
    }
  }

  lemma DumpPreferencesAscii(p: Preferences)
    ensures AsciiText(DumpPreferences(p))
  {
    if p != [] {
      DumpEntriesAscii(p);
    }
  }

  /** An object of four members laid out as `Dumps` lays them out is ASCII when its values are. */
  lemma ObjectAscii(k1: string, k2: string, k3: string, k4: string, v1: string, v2: string, v3: string, v4: string)
    requires AsciiText(v1) && AsciiText(v2) && AsciiText(v3) && AsciiText(v4)
    ensures AsciiText("{\n  " + (
      Member(k1, v1) + (OuterSeparator + (
      Member(k2, v2) + (OuterSeparator + (
      Member(k3, v3) + (OuterSeparator + (
      Member(k4, v4) + "\n}"))))))))
  {
    MemberAscii(k4, v4);
    var r3 := OuterSeparator + (Member(k4, v4) + "\n}");
    assert AsciiText(r3);
    MemberAscii(k3, v3);
    var r2 := OuterSeparator + (Member(k3, v3) + r3);
    assert AsciiText(r2);
    MemberAscii(k2, v2);
    var r1 := OuterSeparator + (Member(k2, v2) + r2);
    assert AsciiText(r1);
    MemberAscii(k1, v1);
  }

  /** `ensure_ascii`: the whole JSON text is printable ASCII and line breaks, whatever the strings hold. */
  lemma DumpsAscii(p: Payload)
    ensures AsciiText(Dumps(p))
  {
    DumpPreferencesAscii(p.userPreferences);
    EncodeStringAscii(p.targetLlm);
    EncodeStringAscii(p.bestPracticePromptStructure);
    EncodeStringAscii(p.rawUserPrompt);
    ObjectAscii(TargetLlmKey, StructureKey, RawPromptKey, PreferencesKey,
      EncodeString(p.targetLlm), EncodeString(p.bestPracticePromptStructure),
      EncodeString(p.rawUserPrompt), DumpPreferences(p.userPreferences));
  }

  /** `t` is the last part of `s`. */
  predicate EndsWith(s: string, t: string) {
    |t| <= |s| && s[|s| - |t|..] == t
  }

  lemma EndsWithAfter(a: string, rest: string, t: string)
    requires EndsWith(rest, t)
    ensures EndsWith(a + rest, t)
  {
    assert (a + rest)[|a + rest| - |t|..] == rest[|rest| - |t|..];
  }

  /** An object of four members laid out as `Dumps` lays them out ends with its last member. */
  lemma ObjectEnd(opening: string, sep: string, m1: string, m2: string, m3: string, t: string)
    ensures EndsWith(opening + (m1 + (sep + (m2 + (sep + (m3 + (sep + t)))))), t)
  {
    assert EndsWith(t, t) by { assert t[0..] == t; }
    EndsWithAfter(sep, t, t);
    EndsWithAfter(m3, sep + t, t);
    EndsWithAfter(sep, m3 + (sep + t), t);
    EndsWithAfter(m2, sep + (m3 + (sep + t)), t);
    EndsWithAfter(sep, m2 + (sep + (m3 + (sep + t))), t);
    EndsWithAfter(m1, sep + (m2 + (sep + (m3 + (sep + t)))), t);
    EndsWithAfter(opening, m1 + (sep + (m2 + (sep + (m3 + (sep + t))))), t);
  }
}
