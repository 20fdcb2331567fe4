/** Translation between wheel codes and the musical key names the key
    estimator reports. The application holds two independent tables, one in
    each direction, plus a short list of sharp spellings it rewrites to the
    flat spellings the tables use. */
module KeyNames {
  import opened Wrappers
  import opened Camelot

  /** Code to key name, as the wheel is initialised. */
  const CamelotWheel: map<Code, string> := map[
    Code(1, A) := "Ab minor",  Code(1, B) := "B major",
    Code(2, A) := "Eb minor",  Code(2, B) := "Gb major",
    Code(3, A) := "Bb minor",  Code(3, B) := "Db major",
    Code(4, A) := "F minor",   Code(4, B) := "Ab major",
    Code(5, A) := "C minor",   Code(5, B) := "Eb major",
    Code(6, A) := "G minor",   Code(6, B) := "Bb major",
    Code(7, A) := "D minor",   Code(7, B) := "F major",
    Code(8, A) := "A minor",   Code(8, B) := "C major",
    Code(9, A) := "E minor",   Code(9, B) := "G major",
    Code(10, A) := "B minor",  Code(10, B) := "D major",
    Code(11, A) := "Gb minor", Code(11, B) := "A major",
    Code(12, A) := "Db minor", Code(12, B) := "E major"
  ]

  /** Key name to code, the table key detection looks names up in. */
  const Keys: map<string, Code> := map[
    "Ab minor" := Code(1, A),  "B major" := Code(1, B),
    "Eb minor" := Code(2, A),  "Gb major" := Code(2, B),
    "Bb minor" := Code(3, A),  "Db major" := Code(3, B),
    "F minor" := Code(4, A),   "Ab major" := Code(4, B),
    "C minor" := Code(5, A),   "Eb major" := Code(5, B),
    "G minor" := Code(6, A),   "Bb major" := Code(6, B),
    "D minor" := Code(7, A),   "F major" := Code(7, B),
    "A minor" := Code(8, A),   "C major" := Code(8, B),
    "E minor" := Code(9, A),   "G major" := Code(9, B),
    "B minor" := Code(10, A),  "D major" := Code(10, B),
    "Gb minor" := Code(11, A), "A major" := Code(11, B),
    "Db minor" := Code(12, A), "E major" := Code(12, B)
  ]

  /** The five sharp spellings rewritten before the lookup. */
  const EnharmonicMap: map<string, string> := map[
    "F# minor" := "Gb minor",
    "C# major" := "Db major",
    "D# minor" := "Eb minor",
    "G# minor" := "Ab minor",
    "A# major" := "Bb major"
  ]

  /** `enharmonicMap[key] || key`: the replacement when there is one,
      otherwise the name itself. */
  function Normalize(name: string): (r: string)
    ensures name !in EnharmonicMap ==> r == name
    ensures name in EnharmonicMap ==> r in Keys
  {
    if name in EnharmonicMap then EnharmonicMap[name] else name
  }

  /** `keys[name]`: the code for a name, or undefined (None). */
  function LookupCode(name: string): (r: Option<Code>)
    ensures r.Some? <==> name in Keys
    ensures r.Some? ==> r.value in CamelotWheel && CamelotWheel[r.value] == name
  {
    WheelKeysInverse();
    if name in Keys then Some(Keys[name]) else None
  }

  datatype DetectedKey = DetectedKey(key: string, camelotKey: Option<Code>)

  /** The table part of key detection: the estimator's key and scale are
      joined with a space, normalised and looked up. */
  function DetectKey(key: string, scale: string): (r: DetectedKey)
    ensures r.camelotKey.Some? ==>
              r.camelotKey.value in CamelotWheel && CamelotWheel[r.camelotKey.value] == r.key
    ensures r.camelotKey.None? <==> r.key !in Keys
    ensures r.key == Normalize(key + " " + scale)
    ensures key + " " + scale !in EnharmonicMap ==> r.key == key + " " + scale
    ensures key + " " + scale in EnharmonicMap ==>
              r.key == EnharmonicMap[key + " " + scale] && r.camelotKey.Some?
  {
    var name := Normalize(key + " " + scale);
    DetectedKey(name, LookupCode(name))
  }

  /** The wheel covers all 24 codes, the two tables are inverse to each
      other, and so the 24 names are distinct. */
  lemma WheelKeysInverse()
    ensures forall c: Code :: c in CamelotWheel
    ensures forall c: Code :: CamelotWheel[c] in Keys && Keys[CamelotWheel[c]] == c
    ensures forall name :: name in Keys ==> CamelotWheel[Keys[name]] == name
  {
    WheelToKeys();
    KeysToWheel();
  }

  /** Every code has a wheel name, and the key table maps it back. */
  lemma WheelToKeys()
    ensures forall c: Code :: c in CamelotWheel && CamelotWheel[c] in Keys && Keys[CamelotWheel[c]] == c
  {
    forall c: Code
      ensures c in CamelotWheel && CamelotWheel[c] in Keys && Keys[CamelotWheel[c]] == c
    {
      WheelEntry(c);
    }
  }

  /** Every name in the key table is the wheel name of its code. The 24
      names are split into the same four groups of six as `WheelEntry`, only
      to keep each proof obligation small for the solver. */
  lemma KeysToWheel()
    ensures forall name :: name in Keys ==> Keys[name] in CamelotWheel && CamelotWheel[Keys[name]] == name
  {
    forall name | name in Keys
      ensures Keys[name] in CamelotWheel && CamelotWheel[Keys[name]] == name
    {
      if name in {"Ab minor", "Eb minor", "Bb minor", "F minor", "C minor", "G minor"} {
        KeyEntryMinorLow(name);
      } else if name in {"D minor", "A minor", "E minor", "B minor", "Gb minor", "Db minor"} {
        KeyEntryMinorHigh(name);
      } else if name in {"B major", "Gb major", "Db major", "Ab major", "Eb major", "Bb major"} {
        KeyEntryMajorLow(name);
      } else {
        KeyEntryMajorHigh(name);
      }
    }
  }

  lemma KeyEntryMinorLow(name: string)
    requires name in {"Ab minor", "Eb minor", "Bb minor", "F minor", "C minor", "G minor"}
    ensures name in Keys && Keys[name] in CamelotWheel && CamelotWheel[Keys[name]] == name
  {
    WheelEntry(Keys[name]);
  }

  lemma KeyEntryMinorHigh(name: string)
    requires name in {"D minor", "A minor", "E minor", "B minor", "Gb minor", "Db minor"}
    ensures name in Keys && Keys[name] in CamelotWheel && CamelotWheel[Keys[name]] == name
  {
    WheelEntry(Keys[name]);
  }

  lemma KeyEntryMajorLow(name: string)
    requires name in {"B major", "Gb major", "Db major", "Ab major", "Eb major", "Bb major"}
    ensures name in Keys && Keys[name] in CamelotWheel && CamelotWheel[Keys[name]] == name
  {
    WheelEntry(Keys[name]);
  }

  lemma KeyEntryMajorHigh(name: string)
    requires name in Keys
    requires name !in {"Ab minor", "Eb minor", "Bb minor", "F minor", "C minor", "G minor"} + {"D minor", "A minor", "E minor", "B minor", "Gb minor", "Db minor"} + {"B major", "Gb major", "Db major", "Ab major", "Eb major", "Bb major"}
    ensures name in Keys && Keys[name] in CamelotWheel && CamelotWheel[Keys[name]] == name
  {
    WheelEntry(Keys[name]);
  }

  /** One entry of the inverse property. The 24 cases are split over four
      lemmas of six cases each only to keep each proof obligation small for
      the solver; the four are the same argument on different rows. */
  lemma WheelEntry(c: Code)
    ensures c in CamelotWheel && CamelotWheel[c] in Keys && Keys[CamelotWheel[c]] == c
  {
    if c.m == A {
      if c.n <= 6 { WheelEntryMinorLow(c.n); } else { WheelEntryMinorHigh(c.n); }
    } else {
      if c.n <= 6 { WheelEntryMajorLow(c.n); } else { WheelEntryMajorHigh(c.n); }
    }
  }

  lemma WheelEntryMinorLow(n: Position)
    requires n <= 6
    ensures Code(n, A) in CamelotWheel && CamelotWheel[Code(n, A)] in Keys
    ensures Keys[CamelotWheel[Code(n, A)]] == Code(n, A)
  {
    if n == 1 {
      assert CamelotWheel[Code(1, A)] == "Ab minor";
      assert Keys["Ab minor"] == Code(1, A);
    } else if n == 2 {
      assert CamelotWheel[Code(2, A)] == "Eb minor";
      assert Keys["Eb minor"] == Code(2, A);
    } else if n == 3 {
      assert CamelotWheel[Code(3, A)] == "Bb minor";
      assert Keys["Bb minor"] == Code(3, A);
    } else if n == 4 {
      assert CamelotWheel[Code(4, A)] == "F minor";
      assert Keys["F minor"] == Code(4, A);
    } else if n == 5 {
      assert CamelotWheel[Code(5, A)] == "C minor";
      assert Keys["C minor"] == Code(5, A);
    } else if n == 6 {
      assert CamelotWheel[Code(6, A)] == "G minor";
      assert Keys["G minor"] == Code(6, A);
    }
  }

  lemma WheelEntryMinorHigh(n: Position)
    requires n > 6
    ensures Code(n, A) in CamelotWheel && CamelotWheel[Code(n, A)] in Keys
    ensures Keys[CamelotWheel[Code(n, A)]] == Code(n, A)
  {
    if n == 7 {
      assert CamelotWheel[Code(7, A)] == "D minor";
      assert Keys["D minor"] == Code(7, A);
    } else if n == 8 {
      assert CamelotWheel[Code(8, A)] == "A minor";
      assert Keys["A minor"] == Code(8, A);
    } else if n == 9 {
      assert CamelotWheel[Code(9, A)] == "E minor";
      assert Keys["E minor"] == Code(9, A);
    } else if n == 10 {
      assert CamelotWheel[Code(10, A)] == "B minor";
      assert Keys["B minor"] == Code(10, A);
    } else if n == 11 {
      assert CamelotWheel[Code(11, A)] == "Gb minor";
      assert Keys["Gb minor"] == Code(11, A);
    } else if n == 12 {
      assert CamelotWheel[Code(12, A)] == "Db minor";
      assert Keys["Db minor"] == Code(12, A);
    }
  }

  lemma WheelEntryMajorLow(n: Position)
    requires n <= 6
    ensures Code(n, B) in CamelotWheel && CamelotWheel[Code(n, B)] in Keys
    ensures Keys[CamelotWheel[Code(n, B)]] == Code(n, B)
  {
    if n == 1 {
      assert CamelotWheel[Code(1, B)] == "B major";
      assert Keys["B major"] == Code(1, B);
    } else if n == 2 {
      assert CamelotWheel[Code(2, B)] == "Gb major";
      assert Keys["Gb major"] == Code(2, B);
    } else if n == 3 {
      assert CamelotWheel[Code(3, B)] == "Db major";
      assert Keys["Db major"] == Code(3, B);
    } else if n == 4 {
      assert CamelotWheel[Code(4, B)] == "Ab major";
      assert Keys["Ab major"] == Code(4, B);
    } else if n == 5 {
      assert CamelotWheel[Code(5, B)] == "Eb major";
      assert Keys["Eb major"] == Code(5, B);
    } else if n == 6 {
      assert CamelotWheel[Code(6, B)] == "Bb major";
      assert Keys["Bb major"] == Code(6, B);
    }
  }

  lemma WheelEntryMajorHigh(n: Position)
    requires n > 6
    ensures Code(n, B) in CamelotWheel && CamelotWheel[Code(n, B)] in Keys
    ensures Keys[CamelotWheel[Code(n, B)]] == Code(n, B)
  {
    if n == 7 {
      assert CamelotWheel[Code(7, B)] == "F major";
      assert Keys["F major"] == Code(7, B);
    } else if n == 8 {
      assert CamelotWheel[Code(8, B)] == "C major";
      assert Keys["C major"] == Code(8, B);
    } else if n == 9 {
      assert CamelotWheel[Code(9, B)] == "G major";
      assert Keys["G major"] == Code(9, B);
    } else if n == 10 {
      assert CamelotWheel[Code(10, B)] == "D major";
      assert Keys["D major"] == Code(10, B);
    } else if n == 11 {
      assert CamelotWheel[Code(11, B)] == "A major";
      assert Keys["A major"] == Code(11, B);
    } else if n == 12 {
      assert CamelotWheel[Code(12, B)] == "E major";
      assert Keys["E major"] == Code(12, B);
    }
  }

  /** Every table name is left alone by the normalisation, so the rewrite
      only ever replaces one of the five sharp spellings. */
  lemma NormalizeKeepsTableNames(name: string)
    requires name in Keys
    ensures Normalize(name) == name
  {
  }

  /** Sharp spellings outside the five rewritten ones reach the lookup
      unchanged and find no code. */
  lemma UnmappedSpellings()
    ensures DetectKey("C#", "minor").camelotKey.None?
    ensures DetectKey("F#", "major").camelotKey.None?
    ensures DetectKey("F#", "minor") == DetectedKey("Gb minor", Some(Code(11, A)))
  {
    assert "C#" + " " + "minor" == "C# minor";
    Unmapped("C#", "minor");
    assert "F#" + " " + "major" == "F# major";
    Unmapped("F#", "major");
    FSharpMinor();
  }

  /** The three spellings above are proved one per lemma only to keep each
      proof obligation small for the solver. */
  lemma Unmapped(key: string, scale: string)
    requires key + " " + scale in {"C# minor", "F# major"}
    ensures DetectKey(key, scale).camelotKey.None?
  {
  }

  lemma FSharpMinor()
    ensures DetectKey("F#", "minor") == DetectedKey("Gb minor", Some(Code(11, A)))
  {
    assert "F#" + " " + "minor" == "F# minor";
  }
}
