/** Placeholder substitution in step inputs: repeated ReplaceAll over maps of arbitrary iteration order. */
module Template {
  import opened Collections

  /** `keys` is one order in which a map with the given keys may be iterated. */
  ghost predicate Enumerates(keys: seq<string>, domain: set<string>) {
    Distinct(keys) && Elements(keys) == domain
  }

  /** Go's strings.ReplaceAll for a non-empty `from`: leftmost, non-overlapping occurrences. */
  function ReplaceAll(s: string, from: string, to: string): string
    requires from != ""
    decreases |s|
  {
    if s == "" then ""
    else if from <= s then to + ReplaceAll(s[|from|..], from, to)
    else [s[0]] + ReplaceAll(s[1..], from, to)
  }

  function Placeholder(name: string): (p: string)
    ensures |p| == |name| + 4
  {
    "{{" + name + "}}"
  }

  const INPUT: string := "input."
  const STEPS: string := "steps."

  /** One of the two loops: the keys of `values`, in iteration order, each replaced everywhere. */
  function ReplaceEach(s: string, prefix: string, keys: seq<string>, values: map<string, string>): string
    requires Elements(keys) <= values.Keys
    decreases |keys|
  {
    if keys == [] then s
    else
      var init, k := keys[..|keys| - 1], keys[|keys| - 1];
      assert k in Elements(keys) && Elements(init) <= Elements(keys);
      ReplaceAll(ReplaceEach(s, prefix, init, values), Placeholder(prefix + k), values[k])
  }

  method ResolveTemplate(tmpl: string, input: map<string, string>, outputs: map<string, string>,
                         inputOrder: seq<string>, outputOrder: seq<string>)
    returns (result: string)
    requires Enumerates(inputOrder, input.Keys) && Enumerates(outputOrder, outputs.Keys)
    ensures result == Resolved(tmpl, input, outputs, inputOrder, outputOrder)
  {
    result := tmpl;
    for i := 0 to |inputOrder|
      invariant Elements(inputOrder[..i]) <= input.Keys
      invariant result == ReplaceEach(tmpl, INPUT, inputOrder[..i], input)
    {
      PrefixStep([], inputOrder, i);
      var k := inputOrder[i];
      assert k in Elements(inputOrder);
      result := ReplaceAll(result, Placeholder(INPUT + k), input[k]);
      assert inputOrder[..i + 1][..i] == inputOrder[..i];
    }
    assert inputOrder[..|inputOrder|] == inputOrder;
    ghost var halfway := result;
    for i := 0 to |outputOrder|
      invariant Elements(outputOrder[..i]) <= outputs.Keys
      invariant result == ReplaceEach(halfway, STEPS, outputOrder[..i], outputs)
    {
      PrefixStep([], outputOrder, i);
      var k := outputOrder[i];
      assert k in Elements(outputOrder);
      result := ReplaceAll(result, Placeholder(STEPS + k), outputs[k]);
      assert outputOrder[..i + 1][..i] == outputOrder[..i];
    }
    assert outputOrder[..|outputOrder|] == outputOrder;
  }

  function Resolved(tmpl: string, input: map<string, string>, outputs: map<string, string>,
                    inputOrder: seq<string>, outputOrder: seq<string>): string
    requires Elements(inputOrder) <= input.Keys && Elements(outputOrder) <= outputs.Keys
  {
    ReplaceEach(ReplaceEach(tmpl, INPUT, inputOrder, input), STEPS, outputOrder, outputs)
  }

  // ---- Templates as a reader sees them -------------------------------------------------------

  datatype Segment = Text(text: string) | Hole(name: string)

  function Show(seg: Segment): string {
    match seg
    case Text(t) => t
    case Hole(n) => Placeholder(n)
  }

  function Render(segs: seq<Segment>): string {
    if segs == [] then "" else Show(segs[0]) + Render(segs[1..])
  }

  /** The text neither holds nor leaves half open a pair of opening braces. */
  ghost predicate NoOpening(t: string) {
    && (forall i :: 0 <= i < |t| - 1 ==> !(t[i] == '{' && t[i + 1] == '{'))
    && (t != "" ==> t[|t| - 1] != '{')
  }

  /** No pair of opening braces in literal text, no brace at all in the name of a placeholder. */
  ghost predicate WellFormed(segs: seq<Segment>) {
    forall i :: 0 <= i < |segs| ==> Clean(segs[i])
  }

  ghost predicate Clean(seg: Segment) {
    match seg
    case Text(t) => NoOpening(t)
    case Hole(n) => '{' !in n && '}' !in n
  }

  function Fill(seg: Segment, env: map<string, string>): Segment {
    if seg.Hole? && seg.name in env then Text(env[seg.name]) else seg
  }

  /** All placeholders at once: known names become their values, unknown ones stay as they are. */
  function Substitute(segs: seq<Segment>, env: map<string, string>): (r: seq<Segment>)
    ensures |r| == |segs|
    ensures forall i :: 0 <= i < |segs| ==> r[i] == Fill(segs[i], env)
  {
    seq(|segs|, i requires 0 <= i < |segs| => Fill(segs[i], env))
  }

  /** The names under which the two maps are visible to a template. */
  function Environment(input: map<string, string>, outputs: map<string, string>): map<string, string> {
    Qualified(INPUT, input.Keys, input) + Qualified(STEPS, outputs.Keys, outputs)
  }

  function Qualified(prefix: string, keys: set<string>, values: map<string, string>): map<string, string>
    requires keys <= values.Keys
  {
    var names := set k | k in keys :: prefix + k;
    map n | n in names && prefix <= n && n[|prefix|..] in keys :: values[n[|prefix|..]]
  }

  /** The keys can be told from what follows them, and no value brings part of a placeholder along. */
  ghost predicate Plain(values: map<string, string>) {
    forall k :: k in values ==> '}' !in k && NoOpening(values[k])
  }

  // ---- Texts that a placeholder cannot start in ----------------------------------------------

  /** No end of the text agrees with `from` as far as both go. */
  ghost predicate Free(t: string, from: string) {
    forall i :: 0 <= i < |t| ==> !(from <= t[i..]) && !(t[i..] <= from)
  }

  lemma NoOpeningIsFree(t: string, name: string)
    requires NoOpening(t)
    ensures Free(t, Placeholder(name))
  {
    var p := Placeholder(name);
    forall i | 0 <= i < |t| ensures !(p <= t[i..]) && !(t[i..] <= p) {
      var u := t[i..];
      assert u[0] == t[i] && p[0] == '{' && p[1] == '{';
      if i < |t| - 1 {
        assert u[1] == t[i + 1];
      }
    }
  }

  /** Replacing by itself changes nothing, so such a key cannot do harm. */
  ghost predicate Inert(prefix: string, k: string, values: map<string, string>)
    requires k in values
  {
    values[k] == Placeholder(prefix + k)
  }

  /** No placeholder of these keys that matters can start in the text. */
  ghost predicate Quiet(t: string, prefix: string, values: map<string, string>) {
    forall k :: k in values ==> Inert(prefix, k, values) || Free(t, Placeholder(prefix + k))
  }

  /** No placeholder of another key can start in a value. */
  ghost predicate Independent(prefix: string, values: map<string, string>) {
    forall k, l :: k in values && l in values && k != l ==>
      Inert(prefix, l, values) || Free(values[k], Placeholder(prefix + l))
  }

  ghost predicate QuietSegments(segs: seq<Segment>, prefix: string, values: map<string, string>) {
    forall i :: 0 <= i < |segs| ==>
      match segs[i]
      case Text(t) => Quiet(t, prefix, values)
      case Hole(n) => '{' !in n && '}' !in n
  }

  lemma CleanIsQuiet(segs: seq<Segment>, prefix: string, values: map<string, string>)
    requires WellFormed(segs)
    ensures QuietSegments(segs, prefix, values)
  {
    forall i, k | 0 <= i < |segs| && k in values && segs[i].Text?
      ensures Free(segs[i].text, Placeholder(prefix + k))
    {
      assert Clean(segs[i]);
      NoOpeningIsFree(segs[i].text, prefix + k);
    }
    assert forall i :: 0 <= i < |segs| ==> Clean(segs[i]);
  }

  // ---- One ReplaceAll is one simultaneous step -----------------------------------------------

  lemma {:induction false} ReplaceSkipsText(t: string, rest: string, from: string, to: string)
    requires from != "" && Free(t, from)
    ensures ReplaceAll(t + rest, from, to) == t + ReplaceAll(rest, from, to)
  {
    if t == "" {
      assert t + rest == rest;
    } else {
      assert (t + rest)[1..] == t[1..] + rest;
      assert t == [t[0]] + t[1..];
      NoMatchHere(t, rest, from);
      assert forall i :: 0 <= i < |t[1..]| ==> t[1..][i..] == t[i + 1..];
      ReplaceSkipsText(t[1..], rest, from, to);
    }
  }

  lemma NoMatchHere(t: string, rest: string, from: string)
    requires Free(t, from) && t != ""
    ensures !(from <= t + rest)
  {
    assert t[0..] == t;
    if |from| <= |t| {
      assert (t + rest)[..|from|] == t[..|from|];
    } else {
      assert (t + rest)[..|t|] == t;
    }
  }

  lemma ReplaceHit(name: string, rest: string, to: string)
    ensures ReplaceAll(Placeholder(name) + rest, Placeholder(name), to) == to + ReplaceAll(rest, Placeholder(name), to)
  {
  }

  /** Two placeholders over names without closing braces agree only if the names do. */
  lemma PlaceholderPrefix(name: string, key: string, rest: string)
    requires '}' !in name && '}' !in key
    requires Placeholder(key) <= Placeholder(name) + rest
    ensures name == key
  {
    var p, s := Placeholder(key), Placeholder(name) + rest;
    assert forall i :: 0 <= i < |p| ==> p[i] == s[i];
    assert forall i :: 0 <= i < |key| ==> p[2 + i] == key[i];
    assert forall i :: 0 <= i < |name| ==> s[2 + i] == name[i];
    assert s[2 + |name|] == '}' && p[2 + |key|] == '}';
    assert |name| == |key|;
  }

  lemma ReplaceMiss(name: string, key: string, rest: string, to: string)
    requires '{' !in name && '}' !in name && '}' !in key && name != key
    ensures ReplaceAll(Placeholder(name) + rest, Placeholder(key), to)
         == Placeholder(name) + ReplaceAll(rest, Placeholder(key), to)
  {
    var from, s := Placeholder(key), Placeholder(name) + rest;
    if from <= s {
      PlaceholderPrefix(name, key, rest);
      assert false;
    }
    var tail := name + "}}";
    assert s[1..] == "{" + (tail + rest);
    assert s[1..][1] == tail[0] != from[1];
    assert s[1..][1..] == tail + rest;
    NoOpeningIsFree(tail, key);
    ReplaceSkipsText(tail, rest, from, to);
    assert Placeholder(name) == "{" + ("{" + tail);
  }

  /** Text that the placeholder cannot start in is passed over; the placeholder itself is filled everywhere. */
  lemma {:induction false} ReplaceIsSubstitution(segs: seq<Segment>, key: string, value: string)
    requires forall i :: 0 <= i < |segs| ==>
      match segs[i]
      case Text(t) => Free(t, Placeholder(key))
      case Hole(n) => '{' !in n && '}' !in n
    requires '}' !in key
    ensures ReplaceAll(Render(segs), Placeholder(key), value) == Render(Substitute(segs, map[key := value]))
  {
    if segs == [] {
    } else {
      var env := map[key := value];
      var rest := segs[1..];
      assert forall i :: 0 <= i < |rest| ==> rest[i] == segs[i + 1];
      ReplaceIsSubstitution(rest, key, value);
      assert Substitute(segs, env)[1..] == Substitute(rest, env);
      match segs[0]
      case Text(t) => ReplaceSkipsText(t, Render(rest), Placeholder(key), value);
      case Hole(n) =>
        if n == key {
          ReplaceHit(n, Render(rest), value);
        } else {
          ReplaceMiss(n, key, Render(rest), value);
        }
    }
  }

  lemma {:induction false} ReplaceByItself(s: string, from: string)
    requires from != ""
    ensures ReplaceAll(s, from, from) == s
    decreases |s|
  {
    if s == "" {
    } else if from <= s {
      ReplaceByItself(s[|from|..], from);
      assert s == from + s[|from|..];
    } else {
      ReplaceByItself(s[1..], from);
      assert s == [s[0]] + s[1..];
    }
  }

  // ---- A loop is one simultaneous substitution -----------------------------------------------

  lemma SubstituteTwice(segs: seq<Segment>, e1: map<string, string>, e2: map<string, string>)
    requires e1.Keys !! e2.Keys
    ensures Substitute(Substitute(segs, e1), e2) == Substitute(segs, e1 + e2)
  {
  }

  lemma QualifiedNames(prefix: string, keys: set<string>, values: map<string, string>)
    requires keys <= values.Keys
    ensures forall n :: n in Qualified(prefix, keys, values) <==> prefix <= n && n[|prefix|..] in keys
    ensures forall n :: n in Qualified(prefix, keys, values) ==>
      Qualified(prefix, keys, values)[n] == values[n[|prefix|..]]
  {
    forall n | prefix <= n && n[|prefix|..] in keys
      ensures n in Qualified(prefix, keys, values)
    {
      assert n == prefix + n[|prefix|..];
    }
  }

  lemma QualifiedGrows(prefix: string, keys: set<string>, k: string, values: map<string, string>)
    requires keys <= values.Keys && k in values && k !in keys
    ensures prefix + k !in Qualified(prefix, keys, values)
    ensures Qualified(prefix, keys + {k}, values) == Qualified(prefix, keys, values) + map[prefix + k := values[k]]
  {
  }

  lemma {:induction false} RenderPointwise(a: seq<Segment>, b: seq<Segment>)
    requires |a| == |b| && forall i :: 0 <= i < |a| ==> Show(a[i]) == Show(b[i])
    ensures Render(a) == Render(b)
  {
    if a == [] {
    } else {
      assert forall i :: 0 <= i < |a[1..]| ==> a[1..][i] == a[i + 1] && b[1..][i] == b[i + 1];
      RenderPointwise(a[1..], b[1..]);
    }
  }

  /** The texts in a partly filled template are those it had, and values of other keys. */
  lemma FilledIsFree(segs: seq<Segment>, prefix: string, done: set<string>, values: map<string, string>, k: string)
    requires QuietSegments(segs, prefix, values) && Independent(prefix, values)
    requires done <= values.Keys && k in values && k !in done && !Inert(prefix, k, values)
    ensures var r := Substitute(segs, Qualified(prefix, done, values));
            forall i :: 0 <= i < |r| ==>
              match r[i]
              case Text(t) => Free(t, Placeholder(prefix + k))
              case Hole(n) => '{' !in n && '}' !in n
  {
  }

  lemma NextKey(segs: seq<Segment>, prefix: string, done: set<string>, values: map<string, string>, k: string)
    requires QuietSegments(segs, prefix, values) && Independent(prefix, values) && '}' !in prefix
    requires done <= values.Keys && k in values && k !in done && '}' !in k
    ensures ReplaceAll(Render(Substitute(segs, Qualified(prefix, done, values))), Placeholder(prefix + k), values[k])
         == Render(Substitute(segs, Qualified(prefix, done + {k}, values)))
  {
    var before := Qualified(prefix, done, values);
    var step := map[prefix + k := values[k]];
    QualifiedGrows(prefix, done, k, values);
    SubstituteTwice(segs, before, step);
    if Inert(prefix, k, values) {
      ReplaceByItself(Render(Substitute(segs, before)), Placeholder(prefix + k));
      RenderPointwise(Substitute(segs, before), Substitute(Substitute(segs, before), step));
    } else {
      FilledIsFree(segs, prefix, done, values, k);
      ReplaceIsSubstitution(Substitute(segs, before), prefix + k, values[k]);
    }
  }

  lemma {:induction false} LoopIsSubstitution(segs: seq<Segment>, prefix: string, keys: seq<string>,
                                              values: map<string, string>)
    requires QuietSegments(segs, prefix, values) && Independent(prefix, values) && '}' !in prefix
    requires Distinct(keys) && Elements(keys) <= values.Keys && forall k :: k in keys ==> '}' !in k
    ensures ReplaceEach(Render(segs), prefix, keys, values)
         == Render(Substitute(segs, Qualified(prefix, Elements(keys), values)))
    decreases |keys|
  {
    if keys == [] {
      assert Substitute(segs, Qualified(prefix, {}, values)) == segs;
    } else {
      var init, k := keys[..|keys| - 1], keys[|keys| - 1];
      assert keys == init + [k];
      assert Elements(keys) == Elements(init) + {k};
      assert k !in Elements(init);
      LoopIsSubstitution(segs, prefix, init, values);
      NextKey(segs, prefix, Elements(init), values, k);
    }
  }

  // ---- Both loops together -------------------------------------------------------------------

  /** In each map no value can start a placeholder of another key, and no input value one of the outputs. */
  ghost predicate Tame(input: map<string, string>, outputs: map<string, string>) {
    && (forall k :: k in input ==> '}' !in k && Quiet(input[k], STEPS, outputs))
    && (forall k :: k in outputs ==> '}' !in k)
    && Independent(INPUT, input) && Independent(STEPS, outputs)
  }

  lemma PlainIsIndependent(prefix: string, values: map<string, string>)
    requires Plain(values)
    ensures Independent(prefix, values)
  {
    forall k, l | k in values && l in values && k != l ensures Free(values[k], Placeholder(prefix + l)) {
      NoOpeningIsFree(values[k], prefix + l);
    }
  }

  lemma PlainIsTame(input: map<string, string>, outputs: map<string, string>)
    requires Plain(input) && Plain(outputs)
    ensures Tame(input, outputs)
  {
    PlainIsIndependent(INPUT, input);
    PlainIsIndependent(STEPS, outputs);
    forall k, l | k in input && l in outputs ensures Free(input[k], Placeholder(STEPS + l)) {
      NoOpeningIsFree(input[k], STEPS + l);
    }
  }

  lemma InputsAreQuiet(segs: seq<Segment>, input: map<string, string>, outputs: map<string, string>)
    requires WellFormed(segs) && Tame(input, outputs)
    ensures QuietSegments(Substitute(segs, Qualified(INPUT, input.Keys, input)), STEPS, outputs)
  {
    CleanIsQuiet(segs, STEPS, outputs);
    QualifiedNames(INPUT, input.Keys, input);
  }

  /** Whatever the two iteration orders, the loops perform the one simultaneous substitution. */
  lemma ResolveIsSimultaneous(segs: seq<Segment>, input: map<string, string>, outputs: map<string, string>,
                              inputOrder: seq<string>, outputOrder: seq<string>)
    requires WellFormed(segs) && Tame(input, outputs)
    requires Enumerates(inputOrder, input.Keys) && Enumerates(outputOrder, outputs.Keys)
    ensures Resolved(Render(segs), input, outputs, inputOrder, outputOrder)
         == Render(Substitute(segs, Environment(input, outputs)))
  {
    var e1, e2 := Qualified(INPUT, input.Keys, input), Qualified(STEPS, outputs.Keys, outputs);
    CleanIsQuiet(segs, INPUT, input);
    KeysClosed(inputOrder, input);
    KeysClosed(outputOrder, outputs);
    LoopIsSubstitution(segs, INPUT, inputOrder, input);
    InputsAreQuiet(segs, input, outputs);
    LoopIsSubstitution(Substitute(segs, e1), STEPS, outputOrder, outputs);
    QualifiedNames(INPUT, input.Keys, input);
    QualifiedNames(STEPS, outputs.Keys, outputs);
    forall n | n in e1 ensures n !in e2 {
      assert n[0] == INPUT[0] != STEPS[0];
    }
    SubstituteTwice(segs, e1, e2);
  }

  lemma KeysClosed(keys: seq<string>, values: map<string, string>)
    requires Elements(keys) == values.Keys && forall k :: k in values ==> '}' !in k
    ensures forall k :: k in keys ==> '}' !in k
  {
  }

  /** Placeholders that neither map can answer come out exactly as they went in. */
  lemma UnknownPlaceholdersSurvive(segs: seq<Segment>, input: map<string, string>, outputs: map<string, string>,
                                   inputOrder: seq<string>, outputOrder: seq<string>)
    requires WellFormed(segs) && Tame(input, outputs)
    requires Enumerates(inputOrder, input.Keys) && Enumerates(outputOrder, outputs.Keys)
    requires forall n :: Hole(n) in segs ==>
      && (forall k :: k in input ==> n != INPUT + k)
      && (forall k :: k in outputs ==> n != STEPS + k)
    ensures Resolved(Render(segs), input, outputs, inputOrder, outputOrder) == Render(segs)
  {
    ResolveIsSimultaneous(segs, input, outputs, inputOrder, outputOrder);
    var env := Environment(input, outputs);
    QualifiedNames(INPUT, input.Keys, input);
    QualifiedNames(STEPS, outputs.Keys, outputs);
    forall i | 0 <= i < |segs| ensures Fill(segs[i], env) == segs[i] {
      assert segs[i] in segs;
      if segs[i].Hole? {
        var n := segs[i].name;
        assert INPUT <= n ==> n == INPUT + n[|INPUT|..];
        assert STEPS <= n ==> n == STEPS + n[|STEPS|..];
        assert n !in env;
      }
    }
    assert Substitute(segs, env) == segs;
  }

  lemma HoleAlone(n: string, env: map<string, string>)
    ensures Render([Hole(n)]) == Placeholder(n)
    ensures Render(Substitute([Hole(n)], env)) == if n in env then env[n] else Placeholder(n)
  {
    assert Render([Hole(n)]) == Placeholder(n) + "";
    var filled := Substitute([Hole(n)], env);
    assert filled == [Fill(Hole(n), env)];
    assert Render(filled) == Show(filled[0]) + "";
  }

  lemma StepInEnvironment(input: map<string, string>, outputs: map<string, string>, k: string)
    ensures STEPS + k in Environment(input, outputs) <==> k in outputs
    ensures k in outputs ==> Environment(input, outputs)[STEPS + k] == outputs[k]
  {
    var n := STEPS + k;
    QualifiedNames(INPUT, input.Keys, input);
    QualifiedNames(STEPS, outputs.Keys, outputs);
    assert n[|STEPS|..] == k && n[0] == STEPS[0] != INPUT[0];
  }

  lemma InputInEnvironment(input: map<string, string>, outputs: map<string, string>, k: string)
    ensures INPUT + k in Environment(input, outputs) <==> k in input
    ensures k in input ==> Environment(input, outputs)[INPUT + k] == input[k]
  {
    var n := INPUT + k;
    QualifiedNames(INPUT, input.Keys, input);
    QualifiedNames(STEPS, outputs.Keys, outputs);
    assert n[|INPUT|..] == k && n[0] == INPUT[0] != STEPS[0];
  }

  lemma OneHole(n: string, input: map<string, string>, outputs: map<string, string>,
                inputOrder: seq<string>, outputOrder: seq<string>)
    requires '{' !in n && '}' !in n && Tame(input, outputs)
    requires Enumerates(inputOrder, input.Keys) && Enumerates(outputOrder, outputs.Keys)
    ensures var env := Environment(input, outputs);
            Resolved(Placeholder(n), input, outputs, inputOrder, outputOrder)
              == if n in env then env[n] else Placeholder(n)
  {
    assert Clean(Hole(n));
    HoleAlone(n, Environment(input, outputs));
    ResolveIsSimultaneous([Hole(n)], input, outputs, inputOrder, outputOrder);
  }

  /** A template that is one placeholder: the text of the step's output, or of the input, that it names. */
  lemma PlaceholderAlone(key: string, input: map<string, string>, outputs: map<string, string>,
                         inputOrder: seq<string>, outputOrder: seq<string>)
    requires '{' !in key && '}' !in key && Tame(input, outputs)
    requires Enumerates(inputOrder, input.Keys) && Enumerates(outputOrder, outputs.Keys)
    ensures var t := "{{steps." + key + "}}";
            Resolved(t, input, outputs, inputOrder, outputOrder) == if key in outputs then outputs[key] else t
    ensures var t := "{{input." + key + "}}";
            Resolved(t, input, outputs, inputOrder, outputOrder) == if key in input then input[key] else t
  {
    assert "{{steps." + key + "}}" == Placeholder(STEPS + key) && "{{input." + key + "}}" == Placeholder(INPUT + key);
    OneHole(STEPS + key, input, outputs, inputOrder, outputOrder);
    OneHole(INPUT + key, input, outputs, inputOrder, outputOrder);
    StepInEnvironment(input, outputs, key);
    InputInEnvironment(input, outputs, key);
  }

  /** It is looked up as one output key, dot included, and stays as it is if there is no such output. */
  lemma StepKeyPlaceholder(id: string, key: string, input: map<string, string>, outputs: map<string, string>,
                           inputOrder: seq<string>, outputOrder: seq<string>)
    requires '{' !in id && '}' !in id && '{' !in key && '}' !in key && Tame(input, outputs)
    requires Enumerates(inputOrder, input.Keys) && Enumerates(outputOrder, outputs.Keys)
    ensures var t, k := "{{steps." + id + "." + key + "}}", id + "." + key;
            Resolved(t, input, outputs, inputOrder, outputOrder) == if k in outputs then outputs[k] else t
  {
    var k := id + "." + key;
    assert forall x :: x in k ==> x in id || x == '.' || x in key;
    assert "{{steps." + k + "}}" == "{{steps." + id + "." + key + "}}";
    PlaceholderAlone(k, input, outputs, inputOrder, outputOrder);
  }

  // ---- Exactly when the iteration order does not matter --------------------------------------

  /** One loop gives the same text for all clean templates in all iteration orders. */
  ghost predicate OrderFree(prefix: string, values: map<string, string>) {
    forall segs, keys1, keys2 ::
      WellFormed(segs) && Enumerates(keys1, values.Keys) && Enumerates(keys2, values.Keys) ==>
        SameText(segs, prefix, keys1, keys2, values)
  }

  ghost predicate SameText(segs: seq<Segment>, prefix: string, keys1: seq<string>, keys2: seq<string>,
                           values: map<string, string>)
    requires Elements(keys1) <= values.Keys && Elements(keys2) <= values.Keys
  {
    ReplaceEach(Render(segs), prefix, keys1, values) == ReplaceEach(Render(segs), prefix, keys2, values)
  }

  /** Brace-free names, as the placeholders of clean templates have them. */
  ghost predicate PlainKeys(prefix: string, values: map<string, string>) {
    && '{' !in prefix && '}' !in prefix
    && forall k :: k in values ==> '{' !in k && '}' !in k
  }

  lemma {:induction false} ReplaceGrows(s: string, from: string, to: string)
    requires from != ""
    ensures |to| >= |from| ==> |ReplaceAll(s, from, to)| >= |s|
    ensures |to| <= |from| ==> |ReplaceAll(s, from, to)| <= |s|
    decreases |s|
  {
    if s == "" {
    } else if from <= s {
      ReplaceGrows(s[|from|..], from, to);
    } else {
      ReplaceGrows(s[1..], from, to);
    }
  }

  /** Where the placeholder occurs and its value is another text, the result is another text. */
  lemma {:induction false} ReplaceChanges(s: string, from: string, to: string, i: nat)
    requires from != "" && to != from && i <= |s| && from <= s[i..]
    ensures ReplaceAll(s, from, to) != s
    ensures |to| > |from| ==> |ReplaceAll(s, from, to)| > |s|
    ensures |to| < |from| ==> |ReplaceAll(s, from, to)| < |s|
    decreases |s|
  {
    if from <= s {
      var rest := s[|from|..];
      ReplaceGrows(rest, from, to);
      assert s == from + rest;
      if |to| == |from| {
        assert (to + ReplaceAll(rest, from, to))[..|from|] == to;
        assert s[..|from|] == from;
      }
    } else {
      assert s[0..] == s && s[1..][i - 1..] == s[i..];
      ReplaceChanges(s[1..], from, to, i - 1);
      assert s[1..] == ([s[0]] + s[1..])[1..];
      assert ([s[0]] + ReplaceAll(s[1..], from, to))[1..] == ReplaceAll(s[1..], from, to);
    }
  }

  /** Keys that the template does not mention leave it alone. */
  lemma {:induction false} UnmentionedKeys(segs: seq<Segment>, prefix: string, keys: seq<string>,
                                           values: map<string, string>)
    requires WellFormed(segs) && PlainKeys(prefix, values) && Elements(keys) <= values.Keys
    requires forall k :: k in keys ==> Hole(prefix + k) !in segs
    ensures ReplaceEach(Render(segs), prefix, keys, values) == Render(segs)
    decreases |keys|
  {
    if keys == [] {
    } else {
      var init, k := keys[..|keys| - 1], keys[|keys| - 1];
      assert keys == init + [k];
      assert k in Elements(keys) && Elements(init) <= Elements(keys);
      UnmentionedKeys(segs, prefix, init, values);
      CleanStep(segs, prefix + k, values[k]);
      assert Substitute(segs, map[prefix + k := values[k]]) == segs;
    }
  }

  lemma CleanStep(segs: seq<Segment>, key: string, value: string)
    requires WellFormed(segs) && '}' !in key
    ensures ReplaceAll(Render(segs), Placeholder(key), value) == Render(Substitute(segs, map[key := value]))
  {
    forall i | 0 <= i < |segs| && segs[i].Text? ensures Free(segs[i].text, Placeholder(key)) {
      assert Clean(segs[i]);
      NoOpeningIsFree(segs[i].text, key);
    }
    assert forall i :: 0 <= i < |segs| ==> Clean(segs[i]);
    ReplaceIsSubstitution(segs, key, value);
  }

  /** A template whose filled text holds the second placeholder, begun by the first one's value. */
  lemma Completion(value: string, p: string, name: string) returns (segs: seq<Segment>, i: nat)
    requires p == Placeholder(name) && '{' !in name && '}' !in name && !Free(value, p)
    ensures |segs| == 1 && segs[0].Text? && NoOpening(segs[0].text)
    ensures i <= |value + segs[0].text| && p <= (value + segs[0].text)[i..]
  {
    i :| 0 <= i < |value| && (p <= value[i..] || value[i..] <= p);
    var u := value[i..];
    if p <= u {
      segs := [Text("")];
      assert value + "" == value;
    } else {
      var rest := p[|u|..];
      assert p == u + rest;
      segs := [Text(rest)];
      assert (value + rest)[i..] == u + rest;
      RestOfPlaceholder(name, |u|);
    }
  }

  lemma RestOfPlaceholder(name: string, n: nat)
    requires '{' !in name && 1 <= n <= |name| + 4
    ensures NoOpening(Placeholder(name)[n..])
  {
  }

  /** First `k`, whose value begins the placeholder of `l`: that one is then filled as well. */
  lemma FirstThenSecond(prefix: string, values: map<string, string>, k: string, l: string, others: seq<string>,
                        rest: seq<Segment>, i: nat)
    requires PlainKeys(prefix, values) && k in values && l in values && k !in others && Elements(others) <= values.Keys
    requires !Inert(prefix, l, values)
    requires |rest| == 1 && rest[0].Text? && NoOpening(rest[0].text)
    requires i <= |values[k] + rest[0].text| && Placeholder(prefix + l) <= (values[k] + rest[0].text)[i..]
    ensures Elements(others + [k] + [l]) <= values.Keys
    ensures ReplaceEach(Render([Hole(prefix + k)] + rest), prefix, others + [k] + [l], values)
      != values[k] + rest[0].text
  {
    MentionsOne(prefix, values, k, rest, others);
    InThisOrder(Render([Hole(prefix + k)] + rest), prefix, values, others, k, l);
    ReplaceChanges(values[k] + rest[0].text, Placeholder(prefix + l), values[l], i);
  }

  /** First `l`, which the template does not mention yet. */
  lemma SecondThenFirst(prefix: string, values: map<string, string>, k: string, l: string, others: seq<string>,
                        rest: seq<Segment>)
    requires PlainKeys(prefix, values) && k in values && l in values && k != l && k !in others
    requires Elements(others) <= values.Keys
    requires |rest| == 1 && rest[0].Text? && NoOpening(rest[0].text)
    ensures Elements(others + [l] + [k]) <= values.Keys
    ensures ReplaceEach(Render([Hole(prefix + k)] + rest), prefix, others + [l] + [k], values)
      == values[k] + rest[0].text
  {
    var s := Render([Hole(prefix + k)] + rest);
    AppendedKey(s, prefix, others, l, values);
    MentionsOne(prefix, values, k, rest, others + [l]);
    AppendedKey(s, prefix, others + [l], k, values);
  }

  /** A value in which another key's placeholder can start: the order of the two decides. */
  lemma PairDecides(prefix: string, values: map<string, string>, k: string, l: string, others: seq<string>)
    requires PlainKeys(prefix, values) && k in values && l in values && k != l
    requires !Inert(prefix, l, values) && !Free(values[k], Placeholder(prefix + l))
    requires Enumerates(others, values.Keys - {k, l})
    ensures !OrderFree(prefix, values)
  {
    var keys1, keys2 := others + [k] + [l], others + [l] + [k];
    PairEnumerates(others, values.Keys, k, l);
    PairEnumerates(others, values.Keys, l, k);
    OneOfTheOthers(others, values.Keys, k, l);
    PlainName(prefix, values, l);
    var rest, i := Completion(values[k], Placeholder(prefix + l), prefix + l);
    FirstThenSecond(prefix, values, k, l, others, rest, i);
    SecondThenFirst(prefix, values, k, l, others, rest);
    MentionsOne(prefix, values, k, rest, others);
    NotOrderFree(prefix, values, [Hole(prefix + k)] + rest, keys1, keys2, values[k] + rest[0].text);
  }

  lemma NotOrderFree(prefix: string, values: map<string, string>, segs: seq<Segment>, keys1: seq<string>,
                     keys2: seq<string>, text: string)
    requires WellFormed(segs) && Enumerates(keys1, values.Keys) && Enumerates(keys2, values.Keys)
    requires ReplaceEach(Render(segs), prefix, keys1, values) != text
      == ReplaceEach(Render(segs), prefix, keys2, values)
    ensures !OrderFree(prefix, values)
  {
    assert !SameText(segs, prefix, keys1, keys2, values);
  }

  lemma OneOfTheOthers(others: seq<string>, all: set<string>, k: string, l: string)
    requires Enumerates(others, all - {k, l})
    ensures k !in others && Elements(others) <= all
  {
  }

  lemma PlainName(prefix: string, values: map<string, string>, k: string)
    requires PlainKeys(prefix, values) && k in values
    ensures '{' !in prefix + k && '}' !in prefix + k
  {
  }

  lemma InThisOrder(s: string, prefix: string, values: map<string, string>, others: seq<string>, k: string, l: string)
    requires Elements(others) <= values.Keys && k in values && l in values
    ensures Elements(others + [k] + [l]) <= values.Keys
    ensures ReplaceEach(s, prefix, others + [k] + [l], values)
         == ReplaceAll(ReplaceAll(ReplaceEach(s, prefix, others, values), Placeholder(prefix + k), values[k]),
                       Placeholder(prefix + l), values[l])
  {
  }

  lemma PairEnumerates(others: seq<string>, all: set<string>, k: string, l: string)
    requires k in all && l in all && k != l && Enumerates(others, all - {k, l})
    ensures Enumerates(others + [k] + [l], all)
    ensures Elements(others) <= all && Elements(others + [k]) <= all
  {
    var keys := others + [k] + [l];
    assert forall x :: x in others <==> x in Elements(others);
    forall x ensures x in Elements(keys) <==> x in all {
      assert x in keys <==> x in others || x == k || x == l;
    }
  }

  lemma AppendedKey(s: string, prefix: string, keys: seq<string>, k: string, values: map<string, string>)
    requires Elements(keys) <= values.Keys && k in values
    ensures Elements(keys + [k]) <= values.Keys
    ensures ReplaceEach(s, prefix, keys + [k], values)
         == ReplaceAll(ReplaceEach(s, prefix, keys, values), Placeholder(prefix + k), values[k])
  {
  }

  /** A template of one placeholder and some text, filled after keys it does not mention. */
  lemma MentionsOne(prefix: string, values: map<string, string>, k: string, rest: seq<Segment>, keys: seq<string>)
    requires PlainKeys(prefix, values) && k in values && Elements(keys) <= values.Keys && k !in keys
    requires |rest| == 1 && rest[0].Text? && NoOpening(rest[0].text)
    ensures WellFormed([Hole(prefix + k)] + rest)
    ensures ReplaceAll(ReplaceEach(Render([Hole(prefix + k)] + rest), prefix, keys, values), Placeholder(prefix + k),
      values[k])
         == values[k] + rest[0].text
  {
    var segs, env := [Hole(prefix + k)] + rest, map[prefix + k := values[k]];
    assert forall x :: x in prefix + k ==> x in prefix || x in k;
    assert Clean(segs[0]) && Clean(segs[1]);
    forall j | j in keys ensures Hole(prefix + j) !in segs {
      assert (prefix + j)[|prefix|..] == j && (prefix + k)[|prefix|..] == k;
    }
    UnmentionedKeys(segs, prefix, keys, values);
    CleanStep(segs, prefix + k, values[k]);
    var filled := Substitute(segs, env);
    assert filled == [Text(values[k]), rest[0]];
    assert filled[1..] == [rest[0]] && filled[1..][1..] == [];
    assert Render([rest[0]]) == rest[0].text + "";
    assert rest[0].text + "" == rest[0].text;
  }

  lemma {:induction false} SomeEnumeration(keys: set<string>) returns (order: seq<string>)
    ensures Enumerates(order, keys)
  {
    if keys == {} {
      order := [];
    } else {
      var k :| k in keys;
      var rest := SomeEnumeration(keys - {k});
      order := rest + [k];
      assert forall x :: x in rest <==> x in Elements(rest);
      forall x ensures x in Elements(order) <==> x in keys {
        assert x in order <==> x in rest || x == k;
      }
    }
  }

  /**
   A loop's result is the same in all iteration orders if and only if no value can start another key's placeholder.
   */
  lemma LoopOrderIff(prefix: string, values: map<string, string>)
    requires PlainKeys(prefix, values)
    ensures OrderFree(prefix, values) <==> Independent(prefix, values)
  {
    if Independent(prefix, values) {
      forall segs, keys1, keys2 |
        WellFormed(segs) && Enumerates(keys1, values.Keys) && Enumerates(keys2, values.Keys)
        ensures SameText(segs, prefix, keys1, keys2, values)
      {
        CleanIsQuiet(segs, prefix, values);
        KeysClosed(keys1, values);
        KeysClosed(keys2, values);
        LoopIsSubstitution(segs, prefix, keys1, values);
        LoopIsSubstitution(segs, prefix, keys2, values);
      }
    } else {
      var k, l :| k in values && l in values && k != l
        && !Inert(prefix, l, values) && !Free(values[k], Placeholder(prefix + l));
      var others := SomeEnumeration(values.Keys - {k, l});
      PairDecides(prefix, values, k, l, others);
    }
  }

  /** A value that itself contains a placeholder makes the outcome depend on the iteration order. */
  lemma BracedValueIsOrderDependent()
    ensures exists tmpl: string, input: map<string, string>, o1: seq<string>, o2: seq<string> ::
      && Enumerates(o1, input.Keys) && Enumerates(o2, input.Keys)
      && Resolved(tmpl, input, map[], o1, []) != Resolved(tmpl, input, map[], o2, [])
  {
    var a, b, x := "a", "b", "x";
    var ia, ib := INPUT + a, INPUT + b;
    var input := map[a := Placeholder(ib), b := x];
    assert ia[6] != ib[6];
    assert Enumerates([a, b], input.Keys) && Enumerates([b, a], input.Keys);
    // a first: its value is then read as a placeholder; b first: there is nothing to replace yet
    LonePlaceholder(ia, ia, input[a]);
    LonePlaceholder(ib, ib, x);
    LonePlaceholder(ia, ib, x);
    TwoKeys(Placeholder(ia), a, b, input);
    TwoKeys(Placeholder(ia), b, a, input);
    assert |input[a]| != |x|;
  }

  lemma LonePlaceholder(name: string, key: string, value: string)
    requires '{' !in name && '}' !in name && '}' !in key
    ensures ReplaceAll(Placeholder(name), Placeholder(key), value) == if name == key then value else Placeholder(name)
  {
    assert Placeholder(name) + "" == Placeholder(name);
    if name == key {
      ReplaceHit(name, "", value);
    } else {
      ReplaceMiss(name, key, "", value);
    }
  }

  lemma TwoKeys(s: string, k1: string, k2: string, input: map<string, string>)
    requires k1 in input && k2 in input
    ensures Elements([k1, k2]) <= input.Keys && Elements<string>([]) == {}
    ensures Resolved(s, input, map[], [k1, k2], [])
         == ReplaceAll(ReplaceAll(s, Placeholder(INPUT + k1), input[k1]), Placeholder(INPUT + k2), input[k2])
  {
    assert [k1, k2][..1] == [k1] && [k1][..0] == [];
    assert ReplaceEach(s, INPUT, [k1], input) == ReplaceAll(s, Placeholder(INPUT + k1), input[k1]);
  }
}
