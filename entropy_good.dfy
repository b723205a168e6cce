/**
 * The deduplicated formatters: one `format!` call per shape, and thin wrappers that fix the
 * labels.
 */
module EntropyGood {
  import opened RustTypes
  import opened Decimal
  import opened Format

  /** `format!("{}: {}, {}: {}", entity_type, name, attribute, value)`. */
  function FormatEntity(entityType: string, name: string, attribute: string, value: u32): (r: string)
    ensures r == entityType + ": " + name + ", " + attribute + ": " + Dec(value)
  {
    EntityTemplate(entityType, name, attribute, Dec(value));
    Interpolate("{}: {}, {}: {}", [entityType, name, attribute, Dec(value)])
  }

  lemma EntityTemplate(t: string, n: string, a: string, v: string)
    ensures Holes("{}: {}, {}: {}") == 4
    ensures Interpolate("{}: {}, {}: {}", [t, n, a, v]) == t + ": " + n + ", " + a + ": " + v
  {
    InterpolateFour("", ": ", ", ", ": ", "", t, n, a, v);
    assert "" + "{}" + ": " + "{}" + ", " + "{}" + ": " + "{}" + "" == "{}: {}, {}: {}";
    assert "" + t == t;
    assert t + ": " + n + ", " + a + ": " + v + "" == t + ": " + n + ", " + a + ": " + v;
  }

  /** The text is the entity type, the name, the attribute and the value's decimal digits, with six separator characters. */
  lemma FormatEntityShape(entityType: string, name: string, attribute: string, value: u32)
    ensures var r := FormatEntity(entityType, name, attribute, value);
      && |r| == |entityType| + |name| + |attribute| + |Dec(value)| + 6
      && entityType <= r
      && r[|r| - |Dec(value)|..] == Dec(value)
  {
    var r := FormatEntity(entityType, name, attribute, value);
    var front := entityType + ": " + name + ", " + attribute + ": ";
    assert r == front + Dec(value);
    assert r[..|entityType|] == entityType;
    assert r[|front|..] == Dec(value);
  }

  function ProcessUser(name: string, age: u32): (r: string)
    ensures r == "User: " + name + ", Age: " + Dec(age)
  {
    LabelsJoin("User", "Age", name, age, "User: ", ", Age: ");
    FormatEntity("User", name, "Age", age)
  }

  function ProcessAdmin(name: string, level: u32): (r: string)
    ensures r == "Admin: " + name + ", Level: " + Dec(level)
  {
    LabelsJoin("Admin", "Level", name, level, "Admin: ", ", Level: ");
    FormatEntity("Admin", name, "Level", level)
  }

  function ProcessGuest(name: string, duration: u32): (r: string)
    ensures r == "Guest: " + name + ", Duration: " + Dec(duration)
  {
    LabelsJoin("Guest", "Duration", name, duration, "Guest: ", ", Duration: ");
    FormatEntity("Guest", name, "Duration", duration)
  }

  /** With fixed labels the separators merge into two literal runs: `"<t>: "` and `", <a>: "`. */
  lemma LabelsJoin(t: string, a: string, n: string, v: u32, lead: string, middle: string)
    requires lead == t + ": " && middle == ", " + a + ": "
    ensures FormatEntity(t, n, a, v) == lead + n + middle + Dec(v)
  {
    var d := Dec(v);
    calc {
      t + ": " + n + ", " + a + ": " + d;
      lead + n + ", " + a + ": " + d;
      { assert lead + n + ", " + a + ": " == lead + n + (", " + a + ": "); }
      lead + n + middle + d;
    }
  }

  /** `format!("Name: {}, Email: {}, ID: {}", name, email, id)`. */
  function FormatContactDetails(name: string, email: string, id: u32): (r: string)
    ensures r == "Name: " + name + ", Email: " + email + ", ID: " + Dec(id)
  {
    ContactTemplate(name, email, Dec(id));
    Interpolate("Name: {}, Email: {}, ID: {}", [name, email, Dec(id)])
  }

  lemma ContactTemplate(n: string, e: string, i: string)
    ensures Holes("Name: {}, Email: {}, ID: {}") == 3
    ensures Interpolate("Name: {}, Email: {}, ID: {}", [n, e, i]) == "Name: " + n + ", Email: " + e + ", ID: " + i
  {
    InterpolateThree("Name: ", ", Email: ", ", ID: ", "", n, e, i);
    assert "Name: " + "{}" + ", Email: " + "{}" + ", ID: " + "{}" + "" == "Name: {}, Email: {}, ID: {}";
    assert "Name: " + n + ", Email: " + e + ", ID: " + i + "" == "Name: " + n + ", Email: " + e + ", ID: " + i;
  }

  function FormatUserDetails(name: string, email: string, id: u32): (r: string)
    ensures r == "Name: " + name + ", Email: " + email + ", ID: " + Dec(id)
  {
    FormatContactDetails(name, email, id)
  }

  function FormatAdminDetails(name: string, email: string, id: u32): (r: string)
    ensures r == "Name: " + name + ", Email: " + email + ", ID: " + Dec(id)
  {
    FormatContactDetails(name, email, id)
  }

  function FormatGuestDetails(name: string, email: string, id: u32): (r: string)
    ensures r == "Name: " + name + ", Email: " + email + ", ID: " + Dec(id)
  {
    FormatContactDetails(name, email, id)
  }

  /** The three detail formatters return the same text for the same arguments. */
  lemma DetailsAgree(name: string, email: string, id: u32)
    ensures FormatUserDetails(name, email, id) == FormatAdminDetails(name, email, id)
    ensures FormatAdminDetails(name, email, id) == FormatGuestDetails(name, email, id)
  {
  }

  /** The contact details start with the fixed label and end with the id's digits, whatever the name and email are. */
  lemma ContactDetailsShape(name: string, email: string, id: u32)
    ensures var r := FormatContactDetails(name, email, id);
      && "Name: " <= r
      && |r| == |name| + |email| + |Dec(id)| + 21
      && r[|r| - |Dec(id)|..] == Dec(id)
  {
    var r := FormatContactDetails(name, email, id);
    var front := "Name: " + name + ", Email: " + email + ", ID: ";
    assert r == front + Dec(id);
    assert r[..6] == "Name: ";
    assert r[|front|..] == Dec(id);
  }
}
