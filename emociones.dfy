/**
 * The emotion classifier `analizarEmocion` (App.tsx:157-171): the avatar's utterance is
 * lower-cased and tested against four keyword groups in a fixed order; the first group
 * with a keyword occurring in the text decides the emotion, and NEUTRAL is the fallback.
 *
 * A `char` is a Unicode scalar value. For text in the Basic Multilingual Plane it is exactly
 * one UTF-16 code unit, as JavaScript strings count them.
 */
module Emociones {
  import opened Tipos

  // ---------------------------------------------------------------------------
  // Lower-casing (String.prototype.toLowerCase, restricted to Latin-1)
  // ---------------------------------------------------------------------------

  /** An upper-case letter of Basic Latin or Latin-1 (A-Z, À-Þ except the sign ×). */
  predicate EsMayuscula(c: char) {
    ('A' <= c <= 'Z') || ('À' <= c <= 'Þ' && c != '×')
  }

  /** The lower-case form of one letter; every other character is left as it is. */
  function MinusculaChar(c: char): (m: char)
    ensures !EsMayuscula(m)
    ensures EsMayuscula(c) ==> m as int == c as int + 32
    ensures !EsMayuscula(c) ==> m == c
  {
    if EsMayuscula(c) then (c as int + 32) as char else c
  }

  /** `texto.toLowerCase()`: every character is lower-cased on its own; the length is kept. */
  function Minusculas(s: string): (r: string)
    ensures |r| == |s|
    ensures forall i | 0 <= i < |r| :: !EsMayuscula(r[i])
    ensures forall i | 0 <= i < |s| && !EsMayuscula(s[i]) :: r[i] == s[i]
    ensures forall i | 0 <= i < |s| && EsMayuscula(s[i]) :: r[i] as int == s[i] as int + 32
  {
    seq(|s|, i requires 0 <= i < |s| => MinusculaChar(s[i]))
  }

  /** Lower-casing a lower-cased text changes nothing. */
  lemma MinusculasIdempotente(s: string)
    ensures Minusculas(Minusculas(s)) == Minusculas(s)
  {
  }

  // ---------------------------------------------------------------------------
  // Substring search (String.prototype.includes)
  // ---------------------------------------------------------------------------

  /** `sub` occurs in `s` starting at index `i`. */
  ghost predicate EnPosicion(s: string, sub: string, i: int) {
    0 <= i && i + |sub| <= |s| && s[i..i + |sub|] == sub
  }

  /** `sub` occurs somewhere in `s`: the meaning of `s.includes(sub)`. */
  ghost predicate Aparece(s: string, sub: string) {
    exists i :: EnPosicion(s, sub, i)
  }

  /** The executable search: is `sub` a prefix of `s` or of one of its suffixes? */
  function Contiene(s: string, sub: string): (b: bool)
    ensures sub <= s ==> b
    ensures b ==> |sub| <= |s|
    decreases |s|
  {
    if sub <= s then true
    else if s == [] then false
    else Contiene(s[1..], sub)
  }

  /** The search finds exactly the occurrences there are. */
  lemma {:induction false} ContieneSiiAparece(s: string, sub: string)
    ensures Contiene(s, sub) <==> Aparece(s, sub)
  {
    if sub <= s {
      assert EnPosicion(s, sub, 0);
    } else if s == [] {
    } else {
      ContieneSiiAparece(s[1..], sub);
      if Aparece(s[1..], sub) {
        var i :| EnPosicion(s[1..], sub, i);
        assert i + 1 + |sub| <= |s|;
        assert s[1..][i..i + |sub|] == s[i + 1..i + 1 + |sub|];
        assert EnPosicion(s, sub, i + 1);
      }
      if Aparece(s, sub) {
        var i :| EnPosicion(s, sub, i);
        assert i != 0;
        assert s[1..][i - 1..i - 1 + |sub|] == s[i..i + |sub|];
        assert EnPosicion(s[1..], sub, i - 1);
      }
    }
  }

  // ---------------------------------------------------------------------------
  // Keyword groups, in the order they are tested (App.tsx:160-167)
  // ---------------------------------------------------------------------------

  const PalabrasFeliz: seq<string> := ["gracias", "feliz", "jeje", "divertido"]
  const PalabrasTriste: seq<string> := ["perdon", "triste", "lo siento", "gomen"]
  const PalabrasSorprendida: seq<string> := ["nani", "que?!", "sorpresa", "wow"]
  const PalabrasEnojada: seq<string> := ["baka", "enojada", "molesta"]

  /** The `||` chain of `includes` tests of one branch. */
  function ContieneAlguna(txt: string, palabras: seq<string>): (b: bool)
    ensures b <==> exists k :: 0 <= k < |palabras| && Contiene(txt, palabras[k])
  {
    if palabras == [] then false
    else Contiene(txt, palabras[0]) || ContieneAlguna(txt, palabras[1..])
  }

  /** Some keyword of the group occurs in the text. */
  ghost predicate Menciona(txt: string, palabras: seq<string>) {
    exists k :: 0 <= k < |palabras| && Aparece(txt, palabras[k])
  }

  lemma {:induction false} ContieneAlgunaSiiMenciona(txt: string, palabras: seq<string>)
    ensures ContieneAlguna(txt, palabras) <==> Menciona(txt, palabras)
  {
    if palabras != [] {
      ContieneSiiAparece(txt, palabras[0]);
      ContieneAlgunaSiiMenciona(txt, palabras[1..]);
      if Menciona(txt, palabras[1..]) {
        var k :| 0 <= k < |palabras[1..]| && Aparece(txt, palabras[1..][k]);
        assert Aparece(txt, palabras[k + 1]);
      }
      if Menciona(txt, palabras) {
        var k :| 0 <= k < |palabras| && Aparece(txt, palabras[k]);
        if k > 0 {
          assert palabras[1..][k - 1] == palabras[k];
        }
      }
    }
  }

  // ---------------------------------------------------------------------------
  // The classifier
  // ---------------------------------------------------------------------------

  /**
   * `analizarEmocion(texto)`: the emotion it writes into `emocionActual`. The first group, in
   * the order FELIZ, TRISTE, SORPRENDIDA, ENOJADA, that has a keyword occurring in the
   * lower-cased text decides the emotion; with none, it is NEUTRAL.
   */
  function AnalizarEmocion(texto: string): (e: Emocion)
    ensures var txt := Minusculas(texto);
      && (e == FELIZ <==> Menciona(txt, PalabrasFeliz))
      && (e == TRISTE <==> !Menciona(txt, PalabrasFeliz) && Menciona(txt, PalabrasTriste))
      && (e == SORPRENDIDA <==>
            !Menciona(txt, PalabrasFeliz) && !Menciona(txt, PalabrasTriste)
            && Menciona(txt, PalabrasSorprendida))
      && (e == ENOJADA <==>
            !Menciona(txt, PalabrasFeliz) && !Menciona(txt, PalabrasTriste)
            && !Menciona(txt, PalabrasSorprendida) && Menciona(txt, PalabrasEnojada))
      && (e == NEUTRAL <==>
            !Menciona(txt, PalabrasFeliz) && !Menciona(txt, PalabrasTriste)
            && !Menciona(txt, PalabrasSorprendida) && !Menciona(txt, PalabrasEnojada))
  {
    var txt := Minusculas(texto);
    ContieneAlgunaSiiMenciona(txt, PalabrasFeliz);
    ContieneAlgunaSiiMenciona(txt, PalabrasTriste);
    ContieneAlgunaSiiMenciona(txt, PalabrasSorprendida);
    ContieneAlgunaSiiMenciona(txt, PalabrasEnojada);
    if ContieneAlguna(txt, PalabrasFeliz) then FELIZ
    else if ContieneAlguna(txt, PalabrasTriste) then TRISTE
    else if ContieneAlguna(txt, PalabrasSorprendida) then SORPRENDIDA
    else if ContieneAlguna(txt, PalabrasEnojada) then ENOJADA
    else NEUTRAL
  }

  /** A happy keyword wins over every other group, e.g. "gracias" together with "triste". */
  lemma FelizGana(texto: string, palabra: string)
    requires palabra in PalabrasFeliz
    requires Aparece(Minusculas(texto), palabra)
    ensures AnalizarEmocion(texto) == FELIZ
  {
    var k :| 0 <= k < |PalabrasFeliz| && PalabrasFeliz[k] == palabra;
    assert Menciona(Minusculas(texto), PalabrasFeliz);
  }

  /** The classification ignores case: a text and its lower-cased form get the same emotion. */
  lemma IgnoraMayusculas(texto: string)
    ensures AnalizarEmocion(Minusculas(texto)) == AnalizarEmocion(texto)
  {
    MinusculasIdempotente(texto);
  }

  // ---------------------------------------------------------------------------
  // Sample utterances of the classifier
  // ---------------------------------------------------------------------------

  /** A text with no upper-case letter is its own lower-cased form. */
  lemma SinMayusculas(s: string)
    requires forall c :: c in s ==> !EsMayuscula(c)
    ensures Minusculas(s) == s
  {
  }

  /** Every character of a keyword that occurs in a text is a character of the text. */
  lemma CaracterPresente(s: string, sub: string, j: nat)
    requires j < |sub|
    ensures Aparece(s, sub) ==> sub[j] in s
  {
    if Aparece(s, sub) {
      var i :| EnPosicion(s, sub, i);
      assert s[i + j] == s[i..i + |sub|][j];
    }
  }

  /** Every piece of a keyword that occurs in a text occurs in the text. */
  lemma FragmentoPresente(s: string, sub: string, j: nat, k: nat)
    requires j <= k <= |sub|
    ensures Aparece(s, sub) ==> Aparece(s, sub[j..k])
  {
    if Aparece(s, sub) {
      var i :| EnPosicion(s, sub, i);
      assert sub == s[i..i + |sub|];
      assert forall m :: 0 <= m < k - j ==> sub[j..k][m] == s[i + j + m];
      assert sub[j..k] == s[i + j..i + k];
      assert EnPosicion(s, sub[j..k], i + j);
    }
  }

  /**
   * No keyword of a group occurs in a text when each keyword has a character (at the
   * index `testigos[k]`) that the text lacks.
   */
  lemma GrupoAusente(s: string, palabras: seq<string>, testigos: seq<nat>)
    requires |testigos| == |palabras|
    requires forall k :: 0 <= k < |palabras| ==>
               testigos[k] < |palabras[k]| && palabras[k][testigos[k]] !in s
    ensures !Menciona(s, palabras)
  {
    forall k | 0 <= k < |palabras|
      ensures !Aparece(s, palabras[k])
    {
      CaracterPresente(s, palabras[k], testigos[k]);
    }
  }

  /** A two-character piece occurs only where its two characters stand side by side. */
  lemma ParAusente(s: string, par: string)
    requires |par| == 2
    requires forall i :: 0 <= i < |s| - 1 ==> s[i] != par[0] || s[i + 1] != par[1]
    ensures !Aparece(s, par)
  {
    forall i
      ensures !EnPosicion(s, par, i)
    {
      if 0 <= i && i + 2 <= |s| {
        assert s[i..i + 2][0] == s[i] && s[i..i + 2][1] == s[i + 1];
      }
    }
  }

  lemma HechosFeliz(s: string)
    requires s == "muchas gracias, jeje"
    ensures Minusculas(s) == s && Aparece(s, PalabrasFeliz[0])
  {
    SinMayusculas(s);
    assert s[7..14] == PalabrasFeliz[0];
    assert EnPosicion(s, PalabrasFeliz[0], 7);
  }

  lemma EjemploFeliz(s: string)
    requires s == "muchas gracias, jeje"
    ensures AnalizarEmocion(s) == FELIZ
  {
    HechosFeliz(s);
    FelizGana(s, PalabrasFeliz[0]);
  }

  lemma HechosTriste(s: string)
    requires s == "lo siento mucho"
    ensures Minusculas(s) == s
    ensures !Menciona(s, PalabrasFeliz) && Menciona(s, PalabrasTriste)
  {
    SinMayusculas(s);
    GrupoAusente(s, PalabrasFeliz, [0, 0, 0, 0]);
    assert s[0..9] == PalabrasTriste[2];
    assert EnPosicion(s, PalabrasTriste[2], 0);
  }

  lemma EjemploTriste(s: string)
    requires s == "lo siento mucho"
    ensures AnalizarEmocion(s) == TRISTE
  {
    HechosTriste(s);
  }

  lemma HechosSorprendida(s: string)
    requires s == "wow, nani?!"
    ensures Minusculas(s) == s
    ensures !Menciona(s, PalabrasFeliz) && !Menciona(s, PalabrasTriste)
    ensures Menciona(s, PalabrasSorprendida)
  {
    SinMayusculas(s);
    GrupoAusente(s, PalabrasFeliz, [0, 0, 0, 0]);
    GrupoAusente(s, PalabrasTriste, [0, 0, 0, 0]);
    assert s[0..3] == PalabrasSorprendida[3];
    assert EnPosicion(s, PalabrasSorprendida[3], 0);
  }

  lemma EjemploSorprendida(s: string)
    requires s == "wow, nani?!"
    ensures AnalizarEmocion(s) == SORPRENDIDA
  {
    HechosSorprendida(s);
  }

  lemma HechosEnojada(s: string)
    requires s == "estás baka"
    ensures Minusculas(s) == s
    ensures !Menciona(s, PalabrasFeliz) && !Menciona(s, PalabrasTriste)
    ensures !Menciona(s, PalabrasSorprendida) && Menciona(s, PalabrasEnojada)
  {
    SinMayusculas(s);
    GrupoAusente(s, PalabrasFeliz, [0, 0, 0, 0]);
    GrupoAusente(s, PalabrasTriste, [0, 1, 0, 0]);
    GrupoAusente(s, PalabrasSorprendida, [0, 0, 1, 0]);
    assert s[6..10] == PalabrasEnojada[0];
    assert EnPosicion(s, PalabrasEnojada[0], 6);
  }

  lemma EjemploEnojada(s: string)
    requires s == "estás baka"
    ensures AnalizarEmocion(s) == ENOJADA
  {
    HechosEnojada(s);
  }

  lemma HechosNeutral(s: string)
    requires s == "hola como estas"
    ensures Minusculas(s) == s
    ensures !Menciona(s, PalabrasFeliz) && !Menciona(s, PalabrasTriste)
    ensures !Menciona(s, PalabrasSorprendida)
  {
    SinMayusculas(s);
    GrupoAusente(s, PalabrasFeliz, [0, 0, 0, 0]);
    GrupoAusente(s, PalabrasTriste, [0, 1, 4, 0]);
    GrupoAusente(s, PalabrasSorprendida, [0, 0, 2, 0]);
  }

  /** "molesta" shares every letter with the greeting, but its piece "le" does not occur there. */
  lemma SinEnojoEnSaludo(s: string)
    requires s == "hola como estas"
    ensures !Menciona(s, PalabrasEnojada)
  {
    CaracterPresente(s, PalabrasEnojada[0], 0);
    CaracterPresente(s, PalabrasEnojada[1], 1);
    FragmentoPresente(s, PalabrasEnojada[2], 2, 4);
    assert PalabrasEnojada[2][2..4] == "le";
    ParAusente(s, "le");
    assert !Aparece(s, PalabrasEnojada[0]) && !Aparece(s, PalabrasEnojada[1]);
    assert !Aparece(s, PalabrasEnojada[2]);
  }

  lemma EjemploNeutral(s: string)
    requires s == "hola como estas"
    ensures AnalizarEmocion(s) == NEUTRAL
  {
    HechosNeutral(s);
    SinEnojoEnSaludo(s);
  }

  lemma HechosPrioridad(s: string)
    requires s == "gracias, estoy triste"
    ensures Minusculas(s) == s && Aparece(s, PalabrasFeliz[0]) && Aparece(s, PalabrasTriste[1])
  {
    SinMayusculas(s);
    assert s[0..7] == PalabrasFeliz[0];
    assert EnPosicion(s, PalabrasFeliz[0], 0);
    assert s[15..21] == PalabrasTriste[1];
    assert EnPosicion(s, PalabrasTriste[1], 15);
  }

  /** A text with both a happy and a sad keyword is classified FELIZ. */
  lemma EjemploPrioridad(s: string)
    requires s == "gracias, estoy triste"
    ensures AnalizarEmocion(s) == FELIZ
  {
    HechosPrioridad(s);
    FelizGana(s, PalabrasFeliz[0]);
  }
}
