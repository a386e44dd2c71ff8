/**
 * `templatize(template, substitutions)`: every `{{key}}` of the template is replaced by the
 * text of its value, one key at a time in the substitutions' enumeration order, each key by
 * one `replaceAll` over the text the previous keys produced.
 */
module Templatize {
  import opened Wrappers
  import opened Js
  import opened JsString
  import opened JsNumber
  import opened Types

  /** The text a value is written as: `null` and `undefined` become `""`, a number its digits. */
  function ValueText(v: SubstValue): string
  {
    match v
    case Str(s) => s
    case Num(n) => IntToString(n)
    case NullValue => ""
    case UndefinedValue => ""
  }

  /** The placeholder `{{key}}` a key stands for; it is never empty. */
  function Placeholder(key: string): (p: string)
    ensures |p| == |key| + 4 && p[2..|p| - 2] == key
  {
    "{{" + key + "}}"
  }

  /** One `forEach` step after another: each property's placeholder replaced in turn. */
  function Fold(text: string, subs: Obj<SubstValue>): string
    decreases |subs|
  {
    if subs == [] then text
    else Fold(ReplaceAll(text, Placeholder(subs[0].key), ValueText(subs[0].value)), subs[1..])
  }

  /** `templatize(template, substitutions)`. */
  function Render(template: string, subs: Obj<SubstValue>): (r: string)
    ensures template == "" ==> r == ""
    ensures subs == [] ==> r == template
  {
    if template == "" then template else Fold(template, subs)
  }

  /** With a single property, rendering is one `replaceAll`. */
  lemma FoldOne(text: string, key: string, v: SubstValue)
    ensures Fold(text, [Property(key, v)]) == ReplaceAll(text, Placeholder(key), ValueText(v))
  {
    assert [Property(key, v)][1..] == [];
  }

  /** The substitutions are applied as a left fold: the first properties, then the rest. */
  lemma {:induction false} FoldAppend(text: string, a: Obj<SubstValue>, b: Obj<SubstValue>)
    ensures Fold(text, a + b) == Fold(Fold(text, a), b)
    decreases |a|
  {
    if a != [] {
      assert (a + b)[0] == a[0] && (a + b)[1..] == a[1..] + b;
      FoldAppend(ReplaceAll(text, Placeholder(a[0].key), ValueText(a[0].value)), a[1..], b);
    } else {
      assert a + b == b;
    }
  }

  /** Rendering with one more property is one more `replaceAll` on the previous result. */
  lemma RenderSnoc(template: string, subs: Obj<SubstValue>, key: string, v: SubstValue)
    requires template != ""
    ensures Render(template, subs + [Property(key, v)])
         == ReplaceAll(Render(template, subs), Placeholder(key), ValueText(v))
  {
    FoldAppend(template, subs, [Property(key, v)]);
    FoldOne(Fold(template, subs), key, v);
  }

  /**
   * What a single key does: the template, cut at the leftmost non-overlapping occurrences of
   * `{{key}}`, joined back with the value's text (for a text without `$`).
   */
  lemma RenderOneKey(parts: seq<string>, key: string, v: SubstValue)
    requires LeftmostSplit(parts, Placeholder(key))
    requires '$' !in ValueText(v)
    requires Join(parts, Placeholder(key)) != ""
    ensures Render(Join(parts, Placeholder(key)), [Property(key, v)]) == Join(parts, ValueText(v))
  {
    FoldOne(Join(parts, Placeholder(key)), key, v);
    ReplaceAllSplit(parts, Placeholder(key), ValueText(v));
  }

  /** A template that mentions none of the keys comes back unchanged. */
  lemma {:induction false} FoldUntouched(text: string, subs: Obj<SubstValue>)
    requires forall i :: 0 <= i < |subs| ==> !Occurs(text, Placeholder(subs[i].key))
    ensures Fold(text, subs) == text
    decreases |subs|
  {
    if subs != [] {
      ReplaceAllAbsent(text, Placeholder(subs[0].key), ValueText(subs[0].value));
      assert forall i :: 0 <= i < |subs[1..]| ==> subs[1..][i] == subs[i + 1];
      FoldUntouched(text, subs[1..]);
    }
  }

  lemma RenderUntouched(template: string, subs: Obj<SubstValue>)
    requires forall i :: 0 <= i < |subs| ==> !Occurs(template, Placeholder(subs[i].key))
    ensures Render(template, subs) == template
  {
    FoldUntouched(template, subs);
  }

  /**
   * A template that is exactly `{{k}}` renders as `k`'s text whatever the other keys are and
   * wherever `k` is listed, as long as no other key's placeholder occurs in `{{k}}` (an earlier
   * pass would cut it) or in the inserted text (a later pass would rewrite it).
   */
  lemma {:induction false} RenderPlaceholderOf(k: string, subs: Obj<SubstValue>, v: SubstValue)
    requires DistinctKeys(subs) && Get(subs, k) == Some(v)
    requires '$' !in ValueText(v)
    requires forall j :: j in Keys(subs) && j != k ==>
      !Occurs(Placeholder(k), Placeholder(j)) && !Occurs(ValueText(v), Placeholder(j))
    ensures Render(Placeholder(k), subs) == ValueText(v)
    decreases |subs|
  {
    var p := subs[0];
    var rest := subs[1..];
    assert subs == [p] + rest;
    ConsKeys(p, rest);
    if p.key == k {
      WholePlaceholder(k, ValueText(v));
      forall i | 0 <= i < |rest|
        ensures !Occurs(ValueText(v), Placeholder(rest[i].key))
      {
        KeysAt(rest, i);
        assert rest[i].key in Keys(rest);
      }
      FoldUntouched(ValueText(v), rest);
    } else {
      ReplaceAllAbsent(Placeholder(k), Placeholder(p.key), ValueText(p.value));
      RenderPlaceholderOf(k, rest, v);
    }
  }

  /** A value that is its own placeholder leaves the text as it was: a pass never rescans. */
  lemma RenderOwnPlaceholder(template: string, key: string)
    requires '$' !in key
    ensures Render(template, [Property(key, Str(Placeholder(key)))]) == template
  {
    FoldOne(template, key, Str(Placeholder(key)));
    ReplaceAllSelf(template, Placeholder(key));
  }

  /** A number is written so that `parseInt` reads the same number back. */
  lemma NumberText(n: int)
    ensures ParseInt(ValueText(Num(n))) == Some(n)
  {
    ParseIntToString("", n, "");
    assert "" + IntToString(n) + "" == IntToString(n);
  }

  /** Every occurrence is replaced: `"{{n}}-{{n}}"` with `n` = `"5"` renders `"5-5"`. */
  lemma ExampleRepeated()
    ensures Render("{{n}}-{{n}}", [Property("n", Str("5"))]) == "5-5"
  {
    var pat := Placeholder("n");
    var parts := ["", "-", ""];
    assert LeftmostSplit(parts, pat) by {
      assert NoneBefore(parts[1] + pat, pat, 1) by {
        assert (parts[1] + pat)[0] == '-';
      }
    }
    assert Join(parts, pat) == "{{n}}-{{n}}";
    RenderOneKey(parts, "n", Str("5"));
    assert Join(parts, "5") == "5-5";
  }

  /** A placeholder at the front is replaced; text after it that holds no placeholder of that key stays. */
  lemma RenderLeading(key: string, v: SubstValue, rest: string)
    requires '$' !in ValueText(v)
    requires !Occurs(rest, Placeholder(key))
    ensures Render(Placeholder(key) + rest, [Property(key, v)]) == ValueText(v) + rest
  {
    var parts := ["", rest];
    assert LeftmostSplit(parts, Placeholder(key)) by {
      assert NoneBefore(parts[0] + Placeholder(key), Placeholder(key), 0);
    }
    assert Join(parts, Placeholder(key)) == Placeholder(key) + rest;
    RenderOneKey(parts, key, v);
    assert Join(parts, ValueText(v)) == ValueText(v) + rest;
  }

  /** A placeholder without a value stays: `"{{a}}{{b}}"` with only `a` = `"1"` renders `"1{{b}}"`. */
  lemma ExampleUnmapped()
    ensures Render("{{a}}{{b}}", [Property("a", Str("1"))]) == "1{{b}}"
  {
    assert !Occurs("{{b}}", Placeholder("a")) by {
      assert !OccursAt("{{b}}", Placeholder("a"), 0) by {
        assert "{{b}}"[2] != Placeholder("a")[2];
      }
    }
    RenderLeading("a", Str("1"), "{{b}}");
    assert Placeholder("a") + "{{b}}" == "{{a}}{{b}}";
  }

  /** `null` and `undefined` erase their placeholder. */
  lemma ExampleNull()
    ensures Render("{{a}}", [Property("a", NullValue)]) == ""
    ensures Render("{{a}}", [Property("a", UndefinedValue)]) == ""
  {
    var pat := Placeholder("a");
    var parts := ["", ""];
    assert LeftmostSplit(parts, pat);
    assert Join(parts, pat) == "{{a}}";
    RenderOneKey(parts, "a", NullValue);
    RenderOneKey(parts, "a", UndefinedValue);
  }

  /** The whole text a placeholder stands for, replaced by `value`. */
  lemma WholePlaceholder(key: string, value: string)
    requires '$' !in value
    ensures ReplaceAll(Placeholder(key), Placeholder(key), value) == value
  {
    var parts := ["", ""];
    assert LeftmostSplit(parts, Placeholder(key));
    assert Join(parts, Placeholder(key)) == Placeholder(key);
    ReplaceAllSplit(parts, Placeholder(key), value);
  }

  /**
   * A later key sees what an earlier value inserted: when `a`'s value is `{{b}}`, the
   * template `{{a}}` renders as `b`'s value.
   */
  lemma RenderChain(a: string, b: string, v: SubstValue)
    requires '$' !in b && '$' !in ValueText(v)
    ensures Render(Placeholder(a), [Property(a, Str(Placeholder(b))), Property(b, v)]) == ValueText(v)
  {
    var first := [Property(a, Str(Placeholder(b)))];
    assert first + [Property(b, v)] == [Property(a, Str(Placeholder(b))), Property(b, v)];
    assert Render(Placeholder(a), first) == Placeholder(b) by {
      assert Placeholder(b) == "{{" + b + "}}";
      FoldOne(Placeholder(a), a, Str(Placeholder(b)));
      WholePlaceholder(a, Placeholder(b));
    }
    RenderSnoc(Placeholder(a), first, b, v);
    WholePlaceholder(b, ValueText(v));
  }

  /** Listed the other way round, the inserted `{{b}}` comes too late and stays. */
  lemma RenderChainTooLate(a: string, b: string, v: SubstValue)
    requires '$' !in b && !Occurs(Placeholder(a), Placeholder(b))
    ensures Render(Placeholder(a), [Property(b, v), Property(a, Str(Placeholder(b)))]) == Placeholder(b)
  {
    var first := [Property(b, v)];
    assert first + [Property(a, Str(Placeholder(b)))] == [Property(b, v), Property(a, Str(Placeholder(b)))];
    assert Render(Placeholder(a), first) == Placeholder(a) by {
      RenderUntouched(Placeholder(a), first);
    }
    RenderSnoc(Placeholder(a), first, a, Str(Placeholder(b)));
    assert Placeholder(b) == "{{" + b + "}}";
    WholePlaceholder(a, Placeholder(b));
  }

  /** `{a: "{{b}}", b: "x"}` renders `"{{a}}"` as `"x"`; in the other order it leaves `"{{b}}"`. */
  lemma ExampleChain()
    ensures Render("{{a}}", [Property("a", Str("{{b}}")), Property("b", Str("x"))]) == "x"
    ensures Render("{{a}}", [Property("b", Str("x")), Property("a", Str("{{b}}"))]) == "{{b}}"
  {
    assert Placeholder("a") == "{{a}}" && Placeholder("b") == "{{b}}";
    RenderChain("a", "b", Str("x"));
    assert !Occurs("{{a}}", "{{b}}") by {
      assert !OccursAt("{{a}}", "{{b}}", 0) by {
        assert "{{a}}"[2] != "{{b}}"[2];
      }
    }
    RenderChainTooLate("a", "b", Str("x"));
  }

  /**
   * A value is a `replaceAll` replacement string, so its `$` patterns are expanded:
   * the value `"$$"` renders as `"$"`.
   */
  lemma ExampleDollarPattern()
    ensures Render("{{p}}", [Property("p", Str("$$"))]) == "$"
  {
    var pat := Placeholder("p");
    FoldOne(pat, "p", Str("$$"));
    ReplaceFromMatches([], [], pat, "$$");
    assert pat + [] == pat;
    assert Substitution("$$", pat, [], []) == "$" by {
      assert "$$"[2..] == [];
    }
  }
}
