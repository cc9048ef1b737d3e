/**
 * The timing rule of the playback scheduler (App.tsx:113-115), on values: a decoded buffer
 * starts at the later of the cursor `nextStartTime` and the output clock `currentTime`, and
 * the cursor moves to the end of that buffer. Times are exact reals, in seconds.
 */
module Planificacion {

  /** `Math.max(nextStartTime, currentTime)`: when the next buffer starts. */
  function Inicio(cursor: real, ahora: real): (s: real)
    ensures s >= cursor && s >= ahora
    ensures s == cursor || s == ahora
  {
    if cursor >= ahora then cursor else ahora
  }

  /** One arriving audio chunk: the output clock when it is scheduled and its buffer's length. */
  datatype Paquete = Paquete(ahora: real, duracion: real)

  /** The start times of a run of chunks scheduled one after another from `cursor`, with no interruption. */
  function Inicios(cursor: real, ps: seq<Paquete>): (r: seq<real>)
    ensures |r| == |ps|
    decreases |ps|
  {
    if ps == [] then []
    else
      var s := Inicio(cursor, ps[0].ahora);
      [s] + Inicios(s + ps[0].duracion, ps[1..])
  }

  /** The cursor after that run. */
  function CursorTras(cursor: real, ps: seq<Paquete>): real
    decreases |ps|
  {
    if ps == [] then cursor
    else CursorTras(Inicio(cursor, ps[0].ahora) + ps[0].duracion, ps[1..])
  }

  ghost predicate DuracionesValidas(ps: seq<Paquete>) {
    forall i :: 0 <= i < |ps| ==> ps[i].duracion >= 0.0
  }

  /**
   * Each chunk starts where the previous one ends, unless the output clock has already passed
   * that point (an underrun), in which case it starts at once.
   */
  lemma {:induction false} InicioSiguiente(cursor: real, ps: seq<Paquete>, i: nat)
    requires i + 1 < |ps|
    ensures var r := Inicios(cursor, ps);
      r[i + 1] == Inicio(r[i] + ps[i].duracion, ps[i + 1].ahora)
    decreases i
  {
    var s := Inicio(cursor, ps[0].ahora);
    if i > 0 {
      InicioSiguiente(s + ps[0].duracion, ps[1..], i - 1);
    }
  }

  /** No chunk starts before the clock reading it was scheduled at. */
  lemma {:induction false} NoEmpiezaAntes(cursor: real, ps: seq<Paquete>, i: nat)
    requires i < |ps|
    ensures Inicios(cursor, ps)[i] >= ps[i].ahora
    decreases i
  {
    if i > 0 {
      NoEmpiezaAntes(Inicio(cursor, ps[0].ahora) + ps[0].duracion, ps[1..], i - 1);
    }
  }

  /**
   * With non-negative durations no two chunks of the run overlap: every later chunk starts at
   * or after the end of every earlier one, and the cursor ends past all of them.
   */
  lemma {:induction false} SinSolapamiento(cursor: real, ps: seq<Paquete>, i: nat, j: nat)
    requires DuracionesValidas(ps)
    requires i < j < |ps|
    ensures Inicios(cursor, ps)[j] >= Inicios(cursor, ps)[i] + ps[i].duracion
    decreases j
  {
    var r := Inicios(cursor, ps);
    InicioSiguiente(cursor, ps, j - 1);
    if i < j - 1 {
      SinSolapamiento(cursor, ps, i, j - 1);
    }
  }

  /** With non-negative durations the cursor never moves back, and ends after every chunk. */
  lemma {:induction false} CursorCubreTodo(cursor: real, ps: seq<Paquete>)
    requires DuracionesValidas(ps)
    ensures CursorTras(cursor, ps) >= cursor
    ensures forall i :: 0 <= i < |ps| ==> Inicios(cursor, ps)[i] + ps[i].duracion <= CursorTras(cursor, ps)
    decreases |ps|
  {
    if ps != [] {
      var c' := Inicio(cursor, ps[0].ahora) + ps[0].duracion;
      assert DuracionesValidas(ps[1..]) by {
        forall i | 0 <= i < |ps[1..]| ensures ps[1..][i].duracion >= 0.0 { assert ps[1..][i] == ps[i + 1]; }
      }
      CursorCubreTodo(c', ps[1..]);
      forall i | 0 <= i < |ps|
        ensures Inicios(cursor, ps)[i] + ps[i].duracion <= CursorTras(cursor, ps)
      {
        if i > 0 {
          assert Inicios(cursor, ps)[i] == Inicios(c', ps[1..])[i - 1];
          assert ps[i] == ps[1..][i - 1];
        }
      }
    }
  }
}
