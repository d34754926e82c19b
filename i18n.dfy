/** The translation tables and the dotted-path lookup of src/lib/i18n.ts. */
module I18n {

  /** The JavaScript values a lookup can meet: the tables are objects of
      objects of strings; a string answers its `length` and its character
      positions. */
  datatype JsValue =
    | Undefined
    | Str(s: string)
    | Num(n: nat)
    | Obj(fields: map<string, JsValue>)

  /** JavaScript truthiness: `undefined`, `""` and `0` are falsy. */
  predicate Truthy(v: JsValue)
  {
    match v
    case Undefined => false
    case Str(s) => s != ""
    case Num(n) => n != 0
    case Obj(_) => true
  }

  predicate IsDigit(c: char)
  {
    '0' <= c <= '9'
  }

  /** A property name that is an array index: decimal digits without a
      leading zero. */
  predicate IsIndexName(k: string)
  {
    && |k| > 0
    && (forall i :: 0 <= i < |k| ==> IsDigit(k[i]))
    && (k[0] == '0' ==> |k| == 1)
  }

  /** The number a string of decimal digits denotes. */
  function DigitsValue(k: string): (n: nat)
    requires forall i :: 0 <= i < |k| ==> IsDigit(k[i])
    ensures |k| == 1 ==> n == (k[0] as int) - ('0' as int)
  {
    if |k| == 0 then 0
    else
      assert IsDigit(k[|k| - 1]);
      DigitsValue(k[..|k| - 1]) * 10 + ((k[|k| - 1] as int) - ('0' as int))
  }

  /** Appending a digit to a digit string multiplies its value by ten and
      adds the digit. */
  lemma DigitsValueAppend(k: string, d: char)
    requires forall i :: 0 <= i < |k| ==> IsDigit(k[i])
    requires IsDigit(d)
    ensures DigitsValue(k + [d]) == DigitsValue(k) * 10 + ((d as int) - ('0' as int))
  {
    assert (k + [d])[..|k + [d]| - 1] == k;
  }

  /** `v?.[k]`: the own property `k` of an object; of a string its length
      or the one-character string at an index; `undefined` otherwise. */
  function Get(v: JsValue, k: string): (r: JsValue)
    ensures v.Obj? ==> r == if k in v.fields then v.fields[k] else Undefined
    ensures v.Undefined? || v.Num? ==> r == Undefined
    ensures v.Str? && IsIndexName(k) && DigitsValue(k) < |v.s| ==> r == Str([v.s[DigitsValue(k)]])
  {
    match v
    case Obj(fields) => if k in fields then fields[k] else Undefined
    case Str(s) =>
      if k == "length" then Num(|s|)
      else if IsIndexName(k) && DigitsValue(k) < |s| then Str([s[DigitsValue(k)]])
      else Undefined
    case _ => Undefined
  }

  /** The value reached by following `keys` from `v`. */
  function Walk(v: JsValue, keys: seq<string>): JsValue
    decreases |keys|
  {
    if keys == [] then v else Walk(Get(v, keys[0]), keys[1..])
  }

  /** Walking the suffix from position `i` takes the step at `i` first. */
  lemma WalkStep(v: JsValue, keys: seq<string>, i: nat)
    requires i < |keys|
    ensures Walk(v, keys[i..]) == Walk(Get(v, keys[i]), keys[i + 1..])
  {
    assert keys[i..][0] == keys[i];
    assert keys[i..][1..] == keys[i + 1..];
  }

  /** Once the walk meets `undefined`, it stays there. */
  lemma {:induction false} WalkUndefinedStays(keys: seq<string>)
    ensures Walk(Undefined, keys) == Undefined
  {
    if keys != [] {
      WalkUndefinedStays(keys[1..]);
    }
  }

  /** Walking a concatenated path is walking its two halves in turn. */
  lemma {:induction false} WalkAppend(v: JsValue, a: seq<string>, b: seq<string>)
    ensures Walk(v, a + b) == Walk(Walk(v, a), b)
    decreases |a|
  {
    if a == [] {
      assert a + b == b;
    } else {
      assert (a + b)[0] == a[0];
      assert (a + b)[1..] == a[1..] + b;
      WalkAppend(Get(v, a[0]), a[1..], b);
    }
  }

  /** A segment missing anywhere along the path makes the whole walk
      `undefined`. */
  lemma MissingSegment(v: JsValue, before: seq<string>, k: string, after: seq<string>)
    requires Get(Walk(v, before), k) == Undefined
    ensures Walk(v, before + [k] + after) == Undefined
  {
    WalkAppend(v, before + [k], after);
    WalkAppend(v, before, [k]);
    WalkUndefinedStays(after);
  }

  /** The parts joined back with "." in between. */
  function Join(parts: seq<string>): string
    requires |parts| >= 1
  {
    if |parts| == 1 then parts[0] else parts[0] + "." + Join(parts[1..])
  }

  predicate DotFree(p: string)
  {
    forall i :: 0 <= i < |p| ==> p[i] != '.'
  }

  /** `s.split(".")`: every maximal dot-free run, empty runs included. */
  function Split(s: string): (parts: seq<string>)
    ensures |parts| >= 1
    ensures forall j :: 0 <= j < |parts| ==> DotFree(parts[j])
    ensures Join(parts) == s
  {
    if |s| == 0 then [""]
    else
      var rest := Split(s[1..]);
      if s[0] == '.' then
        assert Join([""] + rest) == "" + "." + Join(rest) by {
          assert ([""] + rest)[1..] == rest;
        }
        [""] + rest
      else
        JoinConsHead(s[0], rest);
        [[s[0]] + rest[0]] + rest[1..]
  }

  /** Putting a character in front of the first part puts it in front of
      the joined string. */
  lemma JoinConsHead(c: char, parts: seq<string>)
    requires |parts| >= 1
    ensures Join([[c] + parts[0]] + parts[1..]) == [c] + Join(parts)
  {
    if |parts| > 1 {
      JoinUnfold([[c] + parts[0]] + parts[1..]);
      JoinUnfold(parts);
    }
  }

  /** One step of `Join`, stated with the tail's parts. */
  lemma JoinUnfold(parts: seq<string>)
    requires |parts| > 1
    ensures Join(parts) == parts[0] + ("." + Join(parts[1..]))
  {
  }

  /** Splitting a join of dot-free parts gives the parts back. */
  lemma {:induction false} SplitJoin(parts: seq<string>)
    requires |parts| >= 1
    requires forall j :: 0 <= j < |parts| ==> DotFree(parts[j])
    ensures Split(Join(parts)) == parts
  {
    if |parts| == 1 {
      SplitDotFree(parts[0]);
    } else {
      SplitJoin(parts[1..]);
      SplitPrefix(parts[0], Join(parts[1..]));
      assert [parts[0]] + parts[1..] == parts;
    }
  }

  /** A dot-free string splits into itself. */
  lemma {:induction false} SplitDotFree(p: string)
    requires DotFree(p)
    ensures Split(p) == [p]
  {
    if |p| > 0 {
      SplitDotFree(p[1..]);
      assert [p[0]] + p[1..] == p;
    }
  }

  /** A dot-free head followed by "." splits off as the first part. */
  lemma {:induction false} SplitPrefix(p: string, s: string)
    requires DotFree(p)
    ensures Split(p + "." + s) == [p] + Split(s)
    decreases |p|
  {
    if |p| == 0 {
      assert p + "." + s == "." + s;
      assert ("." + s)[1..] == s;
    } else {
      var t := p + "." + s;
      assert t[0] == p[0];
      assert t[1..] == p[1..] + "." + s;
      SplitPrefix(p[1..], s);
      assert [p[0]] + p[1..] == p;
    }
  }

  /** A language's table: its four sections. */
  function Sections(nav: JsValue, hero: JsValue, services: JsValue, faq: JsValue): JsValue
  {
    Obj(map["nav" := nav, "hero" := hero, "services" := services, "faq" := faq])
  }

  const FrNav := Obj(map[
    "services" := Str("Services"),
    "faq" := Str("FAQ"),
    "contact" := Str("Contact")])

  const FrHero := Obj(map[
    "badge" := Str("Transport VIP Premium"),
    "title" := Str("Votre Confort,"),
    "titleAccent" := Str("Notre Priorité"),
    "description" := Str("Découvrez le luxe du transport avec nos véhicules premium et nos chauffeurs professionnels. Une expérience de voyage exceptionnelle vous attend."),
    "feature1" := Str("Véhicules Premium"),
    "feature2" := Str("Chauffeurs Certifiés"),
    "feature3" := Str("Disponible 24/7"),
    "feature4" := Str("Tarifs Transparents"),
    "cta" := Str("Réserver Maintenant"),
    "availability" := Str("Service actuellement disponible en France"),
    "availabilityDesc" := Str("Nous opérons dans toutes les grandes villes françaises. Expansion européenne prévue prochainement.")])

  const FrServices := Obj(map[
    "badge" := Str("Nos Services"),
    "title" := Str("Excellence en Chaque Détail"),
    "description" := Str("Découvrez ce qui fait de LUXE VTC le choix préféré des clients exigeants"),
    "service1Title" := Str("Réservation Rapide"),
    "service1Desc" := Str("Réservez en moins de 2 minutes via notre plateforme intuitive et sécurisée."),
    "service2Title" := Str("Chauffeurs Professionnels"),
    "service2Desc" := Str("Nos chauffeurs sont certifiés, expérimentés et formés aux plus hauts standards."),
    "service3Title" := Str("Disponibilité 24/7"),
    "service3Desc" := Str("Service disponible à tout moment, jour et nuit, pour vos déplacements."),
    "service4Title" := Str("Sécurité Garantie"),
    "service4Desc" := Str("Véhicules assurés et chauffeurs vérifiés pour votre tranquillité d'esprit.")])

  const FrFaq := Obj(map[
    "badge" := Str("Questions Fréquentes"),
    "title" := Str("Vos Questions, Nos Réponses"),
    "q1" := Str("Comment puis-je réserver un trajet ?"),
    "a1" := Str("Vous pouvez réserver directement via notre formulaire en ligne en indiquant votre lieu de départ, destination, date et heure. Vous recevrez une confirmation par email et SMS."),
    "q2" := Str("Quels sont vos tarifs ?"),
    "a2" := Str("Nos tarifs sont transparents et calculés en fonction de la distance et du type de véhicule. Pas de frais cachés. Vous recevrez un devis avant de confirmer votre réservation."),
    "q3" := Str("Puis-je annuler ma réservation ?"),
    "a3" := Str("Oui, vous pouvez annuler gratuitement jusqu'à 2 heures avant votre trajet. Au-delà, des frais d'annulation peuvent s'appliquer."),
    "q4" := Str("Acceptez-vous les paiements par carte bancaire ?"),
    "a4" := Str("Oui, nous acceptons Visa, Mastercard, ainsi que les paiements via Stripe et PayPal pour votre commodité."),
    "q5" := Str("Vos chauffeurs sont-ils assurés ?"),
    "a5" := Str("Absolument. Tous nos chauffeurs sont certifiés, vérifiés et nos véhicules sont entièrement assurés pour votre sécurité."),
    "q6" := Str("Livrez-vous en dehors de la France ?"),
    "a6" := Str("Actuellement, nos services sont disponibles uniquement en France. Nous prévoyons une expansion européenne prochainement.")])

  const FrTable := Sections(FrNav, FrHero, FrServices, FrFaq)

  const EnNav := Obj(map[
    "services" := Str("Services"),
    "faq" := Str("FAQ"),
    "contact" := Str("Contact")])

  const EnHero := Obj(map[
    "badge" := Str("Premium VIP Transport"),
    "title" := Str("Your Comfort,"),
    "titleAccent" := Str("Our Priority"),
    "description" := Str("Discover the luxury of transportation with our premium vehicles and professional drivers. An exceptional travel experience awaits you."),
    "feature1" := Str("Premium Vehicles"),
    "feature2" := Str("Certified Drivers"),
    "feature3" := Str("Available 24/7"),
    "feature4" := Str("Transparent Pricing"),
    "cta" := Str("Book Now"),
    "availability" := Str("Service currently available in France"),
    "availabilityDesc" := Str("We operate in all major French cities. European expansion planned soon.")])

  const EnServices := Obj(map[
    "badge" := Str("Our Services"),
    "title" := Str("Excellence in Every Detail"),
    "description" := Str("Discover what makes LUXE VTC the preferred choice of demanding clients"),
    "service1Title" := Str("Quick Booking"),
    "service1Desc" := Str("Book in less than 2 minutes via our intuitive and secure platform."),
    "service2Title" := Str("Professional Drivers"),
    "service2Desc" := Str("Our drivers are certified, experienced and trained to the highest standards."),
    "service3Title" := Str("24/7 Availability"),
    "service3Desc" := Str("Service available at any time, day and night, for your travels."),
    "service4Title" := Str("Guaranteed Safety"),
    "service4Desc" := Str("Insured vehicles and verified drivers for your peace of mind.")])

  const EnFaq := Obj(map[
    "badge" := Str("Frequently Asked Questions"),
    "title" := Str("Your Questions, Our Answers"),
    "q1" := Str("How can I book a trip?"),
    "a1" := Str("You can book directly via our online form by providing your departure location, destination, date and time. You will receive confirmation by email and SMS."),
    "q2" := Str("What are your rates?"),
    "a2" := Str("Our rates are transparent and calculated based on distance and vehicle type. No hidden fees. You will receive a quote before confirming your reservation."),
    "q3" := Str("Can I cancel my reservation?"),
    "a3" := Str("Yes, you can cancel for free up to 2 hours before your trip. Beyond that, cancellation fees may apply."),
    "q4" := Str("Do you accept credit card payments?"),
    "a4" := Str("Yes, we accept Visa, Mastercard, as well as payments via Stripe and PayPal for your convenience."),
    "q5" := Str("Are your drivers insured?"),
    "a5" := Str("Absolutely. All our drivers are certified, verified and our vehicles are fully insured for your safety."),
    "q6" := Str("Do you deliver outside of France?"),
    "a6" := Str("Currently, our services are only available in France. We are planning European expansion soon.")])

  const EnTable := Sections(EnNav, EnHero, EnServices, EnFaq)

  /** What a lookup in `root` answers: the value at the dotted path when it
      is truthy, the key itself otherwise. */
  function Lookup(root: JsValue, key: string): JsValue
  {
    var value := Walk(root, Split(key));
    if Truthy(value) then value else Str(key)
  }

  /** `getTranslation(lang, key)`, given `root`, the table of `lang`
      (`FrTable` or `EnTable`): split the key on ".", step through the
      table one segment at a time, and fall back to the key. */
  method GetTranslation(root: JsValue, key: string) returns (r: JsValue)
    ensures r == Lookup(root, key)
  {
    var keys := Split(key);
    var value := root;
    var i := 0;
    while i < |keys|
      invariant 0 <= i <= |keys|
      invariant Walk(value, keys[i..]) == Walk(root, keys)
    {
      WalkStep(value, keys, i);
      value := Get(value, keys[i]);
      i := i + 1;
    }
    if Truthy(value) {
      r := value;
    } else {
      r := Str(key);
    }
  }

  /** The dotted path of dot-free segments that ends at a non-empty string
      looks up that string. */
  lemma LeafTranslates(root: JsValue, path: seq<string>, text: string)
    requires |path| >= 1
    requires forall j :: 0 <= j < |path| ==> DotFree(path[j])
    requires Walk(root, path) == Str(text) && text != ""
    ensures Lookup(root, Join(path)) == Str(text)
  {
    SplitJoin(path);
  }

  /** A segment missing anywhere along a dotted path makes the lookup give
      the key back. */
  lemma MissingSegmentGivesKey(root: JsValue, before: seq<string>, k: string, after: seq<string>)
    requires forall j :: 0 <= j < |before + [k] + after| ==> DotFree((before + [k] + after)[j])
    requires Get(Walk(root, before), k) == Undefined
    ensures Lookup(root, Join(before + [k] + after)) == Str(Join(before + [k] + after))
  {
    SplitJoin(before + [k] + after);
    MissingSegment(root, before, k, after);
  }

  /** A path that ends at a falsy value, such as an empty string, also
      gives the key back. */
  lemma FalsyValueGivesKey(root: JsValue, path: seq<string>)
    requires |path| >= 1
    requires forall j :: 0 <= j < |path| ==> DotFree(path[j])
    requires !Truthy(Walk(root, path))
    ensures Lookup(root, Join(path)) == Str(Join(path))
  {
    SplitJoin(path);
  }

  /** A lookup in an object answers something truthy for every non-empty
      key: no key translates to the empty string. */
  lemma LookupIsFalsyOnlyForEmptyKey(root: JsValue, key: string)
    requires root.Obj? && "" !in root.fields
    ensures !Truthy(Lookup(root, key)) <==> key == ""
  {
    if key == "" {
      assert Split(key) == [""];
      assert Walk(root, [""]) == Walk(Get(root, ""), []);
    }
  }

  /** Two values with the same key structure: the same property names at
      every object, and strings and numbers that agree on truthiness. */
  predicate SameShape(a: JsValue, b: JsValue)
  {
    match a
    case Undefined => b.Undefined?
    case Str(x) => b.Str? && (x == "") == (b.s == "")
    case Num(n) => b.Num? && (n == 0) == (b.n == 0)
    case Obj(fa) =>
      && b.Obj?
      && fa.Keys == b.fields.Keys
      && forall k :: k in fa ==> SameShape(fa[k], b.fields[k])
  }

  /** A path that never asks a string for a property. */
  predicate ThroughObjects(v: JsValue, keys: seq<string>)
    decreases |keys|
  {
    keys == [] || (!v.Str? && ThroughObjects(Get(v, keys[0]), keys[1..]))
  }

  /** Walking two values of the same shape along a path through objects
      reaches values of the same shape. */
  lemma {:induction false} SameShapeWalk(a: JsValue, b: JsValue, keys: seq<string>)
    requires SameShape(a, b) && ThroughObjects(a, keys)
    ensures SameShape(Walk(a, keys), Walk(b, keys))
    decreases |keys|
  {
    if keys != [] {
      var k := keys[0];
      assert SameShape(Get(a, k), Get(b, k));
      SameShapeWalk(Get(a, k), Get(b, k), keys[1..]);
    }
  }

  /** A key resolves when its path leads to a truthy value. */
  predicate Resolves(root: JsValue, key: string)
  {
    Truthy(Walk(root, Split(key)))
  }

  /** A key resolves in one of two tables of the same shape exactly when it
      resolves in the other, when its path stays in objects. */
  lemma SameShapeResolves(a: JsValue, b: JsValue, key: string)
    requires SameShape(a, b) && ThroughObjects(a, Split(key))
    ensures Resolves(a, key) <==> Resolves(b, key)
  {
    SameShapeWalk(a, b, Split(key));
  }

  /** An object whose every property is a non-empty string. */
  predicate TextSection(v: JsValue)
  {
    v.Obj? && forall k :: k in v.fields ==> v.fields[k].Str? && v.fields[k].s != ""
  }

  /** Two sections of non-empty strings under the same names have the same
      shape. */
  lemma TextSectionsSameShape(a: JsValue, b: JsValue)
    requires TextSection(a) && TextSection(b) && a.fields.Keys == b.fields.Keys
    ensures SameShape(a, b)
  {
  }

  lemma NavSameShape()
    ensures SameShape(FrNav, EnNav)
  {
  }

  lemma HeroSameShape()
    ensures SameShape(FrHero, EnHero)
  {
  }

  lemma ServicesSameShape()
    ensures SameShape(FrServices, EnServices)
  {
  }

  /** The property names of the FAQ section. */
  const FaqNames := {"badge", "title", "q1", "a1", "q2", "a2", "q3", "a3", "q4", "a4", "q5", "a5", "q6", "a6"}

  lemma FrFaqIsTextSection()
    ensures TextSection(FrFaq) && FrFaq.fields.Keys == FaqNames
  {
  }

  lemma EnFaqIsTextSection()
    ensures TextSection(EnFaq) && EnFaq.fields.Keys == FaqNames
  {
  }

  lemma FaqSameShape()
    ensures SameShape(FrFaq, EnFaq)
  {
    FrFaqIsTextSection();
    EnFaqIsTextSection();
    TextSectionsSameShape(FrFaq, EnFaq);
  }

  /** Two tables whose sections have pairwise the same shape have the
      same shape. */
  lemma SectionsSameShape(nav: JsValue, hero: JsValue, services: JsValue, faq: JsValue,
                          nav': JsValue, hero': JsValue, services': JsValue, faq': JsValue)
    requires SameShape(nav, nav') && SameShape(hero, hero')
    requires SameShape(services, services') && SameShape(faq, faq')
    ensures SameShape(Sections(nav, hero, services, faq), Sections(nav', hero', services', faq'))
  {
  }

  /** The French and English tables have the same key structure; by
      `SameShapeResolves`, a key whose path stays in their objects resolves
      in French exactly when it resolves in English. */
  lemma TablesSameShape()
    ensures SameShape(FrTable, EnTable)
  {
    NavSameShape();
    HeroSameShape();
    ServicesSameShape();
    FaqSameShape();
    SectionsSameShape(FrNav, FrHero, FrServices, FrFaq, EnNav, EnHero, EnServices, EnFaq);
  }

  /** The hero section of a table. */
  lemma HeroOfSections(nav: JsValue, hero: JsValue, services: JsValue, faq: JsValue)
    ensures Get(Sections(nav, hero, services, faq), "hero") == hero
  {
  }

  lemma SplitTitleIndex()
    ensures Split("hero.title.13") == ["hero", "title", "13"]
  {
    var path := ["hero", "title", "13"];
    assert Join(path) == "hero.title.13";
    SplitJoin(path);
  }

  lemma FrHeroTitleIndex()
    ensures Walk(FrHero, ["title", "13"]) == Str(",")
  {
    DigitsValueAppend("1", '3');
    assert IsIndexName("13") && DigitsValue("13") == 13;
    assert Get(FrHero, "title") == Str("Votre Confort,");
    assert Walk(Str("Votre Confort,"), ["13"]) == Walk(Str(","), []);
  }

  lemma EnHeroTitleIndex()
    ensures Walk(EnHero, ["title", "13"]) == Undefined
  {
    DigitsValueAppend("1", '3');
    assert IsIndexName("13") && DigitsValue("13") == 13;
    assert Get(EnHero, "title") == Str("Your Comfort,");
    assert Walk(Str("Your Comfort,"), ["13"]) == Walk(Undefined, []);
  }

  lemma FrTableTitleIndex()
    ensures Walk(FrTable, ["hero", "title", "13"]) == Str(",")
  {
    FrHeroTitleIndex();
    HeroOfSections(FrNav, FrHero, FrServices, FrFaq);
    assert Walk(FrTable, ["hero", "title", "13"]) == Walk(FrHero, ["title", "13"]);
  }

  lemma EnTableTitleIndex()
    ensures Walk(EnTable, ["hero", "title", "13"]) == Undefined
  {
    EnHeroTitleIndex();
    HeroOfSections(EnNav, EnHero, EnServices, EnFaq);
    assert Walk(EnTable, ["hero", "title", "13"]) == Walk(EnHero, ["title", "13"]);
  }

  /** Outside paths through objects the languages differ: the French title
      has a fourteenth character, so "hero.title.13" translates to it... */
  lemma FrCharacterIndex()
    ensures Lookup(FrTable, "hero.title.13") == Str(",")
  {
    SplitTitleIndex();
    FrTableTitleIndex();
  }

  /** ...while the English one has thirteen, and the key comes back. */
  lemma EnCharacterIndex()
    ensures Lookup(EnTable, "hero.title.13") == Str("hero.title.13")
  {
    SplitTitleIndex();
    EnTableTitleIndex();
  }
}
