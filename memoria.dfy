/**
 * The memory rule of the output-transcription branch (App.tsx:128-132): an avatar utterance
 * longer than thirty characters replaces the remembered string by a fixed sentence that
 * embeds the utterance's first forty characters; any other utterance leaves it alone.
 * Persisting the string (`guardarMemoria`, App.tsx:44-47) is the `memoria` field of the
 * application; the browser storage itself is not modelled.
 */
module Memoria {
  import opened Tipos

  /** An utterance must be longer than this to be remembered. */
  const LargoMinimo: nat := 30

  /** How many leading characters of the utterance the memory keeps (`substring(0, 40)`). */
  const LargoExtracto: nat := 40

  const Prefijo: string := "He aprendido que el usuario es amable y hablamos sobre temas importantes como: "
  const Sufijo: string := "... mi cariño por él crece."

  /** `texto.substring(0, 40)`. */
  function Extracto(texto: string): (e: string)
    ensures |e| <= LargoExtracto && e <= texto
    ensures |texto| <= LargoExtracto ==> e == texto
    ensures |texto| >= LargoExtracto ==> |e| == LargoExtracto
  {
    if |texto| <= LargoExtracto then texto else texto[..LargoExtracto]
  }

  /** The templated memory written for a long utterance. */
  function Recuerdo(texto: string): (m: string)
    ensures |m| == |Prefijo| + |Extracto(texto)| + |Sufijo|
    ensures LeerExtracto(m) == Some(Extracto(texto))
  {
    var m := Prefijo + Extracto(texto) + Sufijo;
    assert m[..|Prefijo|] == Prefijo;
    assert m[|m| - |Sufijo|..] == Sufijo;
    assert m[|Prefijo|..|m| - |Sufijo|] == Extracto(texto);
    m
  }

  /** The memory after the avatar says `texto`. */
  function ActualizarMemoria(memoria: string, texto: string): (r: string)
    ensures |texto| <= LargoMinimo ==> r == memoria
    ensures |texto| > LargoMinimo ==> LeerExtracto(r) == Some(Extracto(texto))
  {
    if |texto| > LargoMinimo then Recuerdo(texto) else memoria
  }

  /** Reads the excerpt back out of a memory string written by the template, if it is one. */
  function LeerExtracto(memoria: string): (r: Option<string>)
  {
    if |memoria| >= |Prefijo| + |Sufijo|
       && memoria[..|Prefijo|] == Prefijo
       && memoria[|memoria| - |Sufijo|..] == Sufijo
    then Some(memoria[|Prefijo|..|memoria| - |Sufijo|])
    else None
  }

  /**
   * A memory written by the rule embeds exactly the utterance's first forty characters, and
   * at least thirty-one of them: the excerpt can be read back out of it.
   */
  lemma RecuerdoConservaExtracto(memoria: string, texto: string)
    requires |texto| > LargoMinimo
    ensures LeerExtracto(ActualizarMemoria(memoria, texto)) == Some(Extracto(texto))
    ensures LargoMinimo < |Extracto(texto)| <= LargoExtracto
    ensures Extracto(texto) == texto[..|Extracto(texto)|]
  {
  }

  /** The memory is replaced if and only if the utterance is longer than thirty characters. */
  lemma MemoriaSoloConTextoLargo(memoria: string, texto: string)
    ensures |texto| <= LargoMinimo ==> ActualizarMemoria(memoria, texto) == memoria
    ensures |texto| > LargoMinimo ==> ActualizarMemoria(memoria, texto) == Recuerdo(texto)
    ensures ActualizarMemoria(memoria, texto) != memoria ==> |texto| > LargoMinimo
  {
  }

  /** A new memory does not depend on the old one, nor on anything past the fortieth character. */
  lemma RecuerdoSoloDelExtracto(m1: string, m2: string, t1: string, t2: string)
    requires |t1| > LargoMinimo && |t2| > LargoMinimo
    requires Extracto(t1) == Extracto(t2)
    ensures ActualizarMemoria(m1, t1) == ActualizarMemoria(m2, t2)
  {
  }

  /** Different excerpts give different memories: nothing of the excerpt is lost. */
  lemma RecuerdoInyectivo(m1: string, m2: string, t1: string, t2: string)
    requires |t1| > LargoMinimo && |t2| > LargoMinimo
    requires ActualizarMemoria(m1, t1) == ActualizarMemoria(m2, t2)
    ensures Extracto(t1) == Extracto(t2)
  {
    RecuerdoConservaExtracto(m1, t1);
    RecuerdoConservaExtracto(m2, t2);
  }
}
