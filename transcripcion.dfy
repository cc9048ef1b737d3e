/**
 * The bounded conversation log `agregarTranscripcion` (App.tsx:153-155): the new log is the
 * last ten entries of the old one (`prev.slice(-10)`) followed by the new entry, so the log
 * never holds more than eleven entries and drops the oldest first.
 */
module Transcripcion {
  import opened Tipos

  /** How many entries `slice(-10)` keeps. */
  const Retenidas: nat := 10

  /** The most entries the log can hold. */
  const Capacidad: nat := Retenidas + 1

  /** `s.slice(-n)` for a positive `n`: the last `n` elements, or all of `s` when it is shorter. */
  function Ultimos<T>(s: seq<T>, n: nat): (r: seq<T>)
    requires n > 0
    ensures |r| == if |s| <= n then |s| else n
    ensures r == s[|s| - |r|..]
  {
    if |s| <= n then s else s[|s| - n..]
  }

  /** `agregarTranscripcion(texto, autor)` with `Date.now()` given as `marca`. */
  function AgregarTranscripcion(log: seq<MensajeTranscripcion>, texto: string, autor: Autor, marca: int)
    : (r: seq<MensajeTranscripcion>)
    ensures 1 <= |r| <= Capacidad
    ensures r[|r| - 1] == MensajeTranscripcion(texto, autor, marca)
    ensures |r| - 1 <= |log| && r[..|r| - 1] == log[|log| - (|r| - 1)..]
    ensures |log| <= Retenidas ==> r == log + [MensajeTranscripcion(texto, autor, marca)]
    ensures |log| >= Retenidas ==> |r| == Capacidad
  {
    Ultimos(log, Retenidas) + [MensajeTranscripcion(texto, autor, marca)]
  }

  /** One append keeps the last eleven entries of everything logged so far: first in, first out. */
  lemma AgregarEsVentana(log: seq<MensajeTranscripcion>, m: MensajeTranscripcion)
    ensures AgregarTranscripcion(log, m.texto, m.autor, m.timestamp) == Ultimos(log + [m], Capacidad)
  {
    var r := AgregarTranscripcion(log, m.texto, m.autor, m.timestamp);
    if |log| > Retenidas {
      assert (log + [m])[|log| + 1 - Capacidad..] == log[|log| - Retenidas..] + [m];
    }
  }

  /** The log after appending each of `ms` in turn. */
  function AgregarTodas(log: seq<MensajeTranscripcion>, ms: seq<MensajeTranscripcion>)
    : seq<MensajeTranscripcion>
    decreases |ms|
  {
    if ms == [] then log
    else AgregarTodas(AgregarTranscripcion(log, ms[0].texto, ms[0].autor, ms[0].timestamp), ms[1..])
  }

  /**
   * However many lines are logged, the log is the last eleven entries of the old log followed
   * by every new line, in arrival order: it never exceeds eleven and always drops the oldest.
   */
  lemma {:induction false} AgregarTodasEsVentana(log: seq<MensajeTranscripcion>, ms: seq<MensajeTranscripcion>)
    ensures AgregarTodas(log, ms) == if ms == [] then log else Ultimos(log + ms, Capacidad)
    decreases |ms|
  {
    if ms != [] {
      AgregarTodasEsVentana(AgregarTranscripcion(log, ms[0].texto, ms[0].autor, ms[0].timestamp), ms[1..]);
      PasoVentana(log, ms);
    }
  }

  /** The step of the induction above: one append, then the window of the rest. */
  lemma PasoVentana(log: seq<MensajeTranscripcion>, ms: seq<MensajeTranscripcion>)
    requires ms != []
    ensures var log' := AgregarTranscripcion(log, ms[0].texto, ms[0].autor, ms[0].timestamp);
      (if ms[1..] == [] then log' else Ultimos(log' + ms[1..], Capacidad))
        == Ultimos(log + ms, Capacidad)
  {
    var m, resto := ms[0], ms[1..];
    AgregarEsVentana(log, m);
    assert log + ms == log + [m] + resto by {
      assert ms == [m] + resto;
    }
    if resto != [] {
      VentanaConcatenada(log + [m], resto);
    }
  }

  /** Taking the window before appending more entries does not change the final window. */
  lemma {:induction false} VentanaConcatenada(s: seq<MensajeTranscripcion>, t: seq<MensajeTranscripcion>)
    ensures Ultimos(Ultimos(s, Capacidad) + t, Capacidad) == Ultimos(s + t, Capacidad)
  {
    if |s| > Capacidad {
      var w := s[|s| - Capacidad..];
      var a, b := w + t, s + t;
      var ua, ub := Ultimos(a, Capacidad), Ultimos(b, Capacidad);
      assert |ua| == Capacidad == |ub|;
      forall i | 0 <= i < Capacidad
        ensures ua[i] == ub[i]
      {
        assert ua[i] == a[|t| + i];
        assert ub[i] == b[|s| + |t| - Capacidad + i];
        if i < Capacidad - |t| {
          assert a[|t| + i] == w[|t| + i] == s[|s| - Capacidad + |t| + i];
        } else {
          assert a[|t| + i] == t[|t| + i - Capacidad];
        }
      }
    }
  }
}
