/**
 * The conversation state of the `App` component (App.tsx:9-171): the playback scheduler
 * (`nextStartTimeRef`, `sourcesRef`), the assistant state observed by the avatar, the
 * transcript log, the remembered string, and the session callbacks that change them.
 *
 * React state updates are applied in the order they are issued, and none of them reads a
 * stale value, so each is modelled as an immediate assignment. The output clock
 * `outputAudioCtx.currentTime`, `Date.now()` and the outcome of decoding an audio payload are
 * parameters.
 */
module App {
  import opened Tipos
  import Emociones
  import Transcripcion
  import Memoria
  import opened Planificacion

  /** A playback source (`AudioBufferSourceNode`) playing one decoded buffer. */
  class Fuente {
    /** `buffer.duration`, in seconds. */
    const duracion: real
    /** The time passed to `start(when)`. */
    var inicio: real
    var iniciada: bool
    var detenida: bool

    /** `createBufferSource()` with `source.buffer = audioBuffer` (App.tsx:110-111). */
    constructor (duracion: real)
      requires duracion >= 0.0
      ensures this.duracion == duracion && !iniciada && !detenida
    {
      this.duracion := duracion;
      inicio := 0.0;
      iniciada := false;
      detenida := false;
    }

    /** `source.start(t)`. */
    method Start(t: real)
      modifies this`inicio, this`iniciada
      ensures iniciada && inicio == t
    {
      inicio := t;
      iniciada := true;
    }

    /** `source.stop()`. */
    method Stop()
      modifies this`detenida
      ensures detenida
    {
      detenida := true;
    }

    /** When the buffer finishes playing. */
    ghost function Fin(): real
      reads this
    {
      inicio + duracion
    }
  }

  /**
   * One inbound server message; every part may be absent. `audio` is
   * `serverContent.modelTurn.parts[0].inlineData.data`, the next two are the input and output
   * transcription texts, and `interrumpido` is `serverContent.interrupted`.
   */
  datatype Mensaje = Mensaje(
    audio: Option<string>,
    entrada: Option<string>,
    salida: Option<string>,
    interrumpido: bool)

  /** `if (audioBase64)`: an empty payload is falsy and ignored. */
  predicate HayAudio(msg: Mensaje): (b: bool)
    ensures msg.audio.None? ==> !b
    ensures msg.audio == Some("") ==> !b
    ensures msg.audio.Some? && |msg.audio.value| > 0 ==> b
  {
    msg.audio.Some? && msg.audio.value != ""
  }

  /**
   * Decoding the payload throws: the `await` rejects and the rest of the message is not
   * processed. `decodificado` is the decoded buffer's duration, or None when decoding fails.
   */
  predicate Aborta(msg: Mensaje, decodificado: Option<real>) {
    HayAudio(msg) && decodificado.None?
  }

  /** The transcript lines one message adds: the user's line, then the avatar's, when present. */
  function LineasNuevas(msg: Mensaje, marcaEntrada: int, marcaSalida: int): seq<MensajeTranscripcion>
  {
    (if msg.entrada.Some? then [MensajeTranscripcion(msg.entrada.value, Usuario, marcaEntrada)] else [])
    + (if msg.salida.Some? then [MensajeTranscripcion(msg.salida.value, Azumi, marcaSalida)] else [])
  }

  /** The transcript log after the input line (if any) and then the output line (if any). */
  function RegistroTras(log: seq<MensajeTranscripcion>, msg: Mensaje, marcaEntrada: int, marcaSalida: int)
    : (r: seq<MensajeTranscripcion>)
    ensures msg.entrada.None? && msg.salida.None? ==> r == log
    ensures msg.entrada.Some? || msg.salida.Some? ==> 1 <= |r| <= Transcripcion.Capacidad
    ensures msg.salida.Some? ==> |r| >= 1 && r[|r| - 1] == MensajeTranscripcion(msg.salida.value, Azumi, marcaSalida)
    ensures msg.entrada.Some? && msg.salida.None? ==>
      |r| >= 1 && r[|r| - 1] == MensajeTranscripcion(msg.entrada.value, Usuario, marcaEntrada)
    ensures msg.entrada.Some? && msg.salida.Some? ==>
      |r| >= 2 && r[|r| - 2] == MensajeTranscripcion(msg.entrada.value, Usuario, marcaEntrada)
  {
    var log1 := if msg.entrada.Some?
      then Transcripcion.AgregarTranscripcion(log, msg.entrada.value, Usuario, marcaEntrada) else log;
    if msg.salida.Some?
    then Transcripcion.AgregarTranscripcion(log1, msg.salida.value, Azumi, marcaSalida) else log1
  }

  /** Appending two lines one at a time is appending the pair. */
  lemma DosLineas(log: seq<MensajeTranscripcion>, e: MensajeTranscripcion, z: MensajeTranscripcion)
    ensures log + [e] + [z] == log + [e, z]
  {
  }

  /**
   * One message's lines enter the log as a first-in-first-out window: the log after the
   * message is the last eleven entries of the old log followed by the new lines, in order.
   */
  lemma RegistroEsVentana(log: seq<MensajeTranscripcion>, msg: Mensaje, marcaEntrada: int, marcaSalida: int)
    ensures var nuevas := LineasNuevas(msg, marcaEntrada, marcaSalida);
      RegistroTras(log, msg, marcaEntrada, marcaSalida)
        == if nuevas == [] then log else Transcripcion.Ultimos(log + nuevas, Transcripcion.Capacidad)
  {
    var r := RegistroTras(log, msg, marcaEntrada, marcaSalida);
    var nuevas := LineasNuevas(msg, marcaEntrada, marcaSalida);
    match (msg.entrada, msg.salida)
    case (Some(u), Some(a)) =>
      var e, z := MensajeTranscripcion(u, Usuario, marcaEntrada), MensajeTranscripcion(a, Azumi, marcaSalida);
      var log1 := Transcripcion.AgregarTranscripcion(log, u, Usuario, marcaEntrada);
      assert nuevas == [e, z];
      assert r == Transcripcion.AgregarTranscripcion(log1, a, Azumi, marcaSalida);
      Transcripcion.AgregarEsVentana(log, e);
      Transcripcion.AgregarEsVentana(log1, z);
      Transcripcion.VentanaConcatenada(log + [e], [z]);
      DosLineas(log, e, z);
    case (Some(u), None) =>
      assert nuevas == [MensajeTranscripcion(u, Usuario, marcaEntrada)];
      Transcripcion.AgregarEsVentana(log, nuevas[0]);
    case (None, Some(a)) =>
      assert nuevas == [MensajeTranscripcion(a, Azumi, marcaSalida)];
      Transcripcion.AgregarEsVentana(log, nuevas[0]);
    case (None, None) =>
  }

  class Aplicacion {
    var estado: EstadoAsistente
    var transcripciones: seq<MensajeTranscripcion>
    /** `memoriaAzumi`, the string persisted under the key 'azumi_memoria'. */
    var memoria: string
    /** `nextStartTimeRef.current`. */
    var nextStartTime: real
    /** `sourcesRef.current`. */
    var fuentes: set<Fuente>

    /**
     * The component's invariant: the cursor is never negative; every active source has been
     * started, not stopped, and ends by the cursor; no two active sources overlap; the avatar
     * is marked as speaking while any source is active; and the log holds at most eleven lines.
     */
    ghost predicate Valid()
      reads this, fuentes
    {
      && nextStartTime >= 0.0
      && |transcripciones| <= Transcripcion.Capacidad
      && (fuentes != {} ==> estado.estaHablando)
      && (forall f :: f in fuentes ==>
            f.iniciada && !f.detenida && f.duracion >= 0.0 && 0.0 <= f.inicio && f.Fin() <= nextStartTime)
      && (forall f, g :: f in fuentes && g in fuentes && f != g ==> f.Fin() <= g.inicio || g.Fin() <= f.inicio)
    }

    /**
     * The component's initial state (App.tsx:12-19, 40-41), then the stored memory loaded at
     * start-up (App.tsx:32-35): a missing or empty stored string leaves the memory empty.
     */
    constructor (guardada: Option<string>)
      ensures Valid()
      ensures estado == EstadoInicial && transcripciones == [] && nextStartTime == 0.0 && fuentes == {}
      ensures memoria == if guardada.Some? then guardada.value else ""
    {
      estado := EstadoInicial;
      transcripciones := [];
      nextStartTime := 0.0;
      fuentes := {};
      memoria := "";
      if guardada.Some? && guardada.value != "" {
        memoria := guardada.value;
      }
    }

    /** `onopen`: the session is connected (the microphone wiring is not modelled). */
    method OnOpen()
      requires Valid()
      modifies this`estado
      ensures Valid()
      ensures estado == old(estado).(estaConectada := true)
      ensures transcripciones == old(transcripciones) && memoria == old(memoria)
      ensures nextStartTime == old(nextStartTime) && fuentes == old(fuentes)
    {
      estado := estado.(estaConectada := true);
    }

    /** `onclose`: the session is disconnected. */
    method OnClose()
      requires Valid()
      modifies this`estado
      ensures Valid()
      ensures estado == old(estado).(estaConectada := false)
      ensures transcripciones == old(transcripciones) && memoria == old(memoria)
      ensures nextStartTime == old(nextStartTime) && fuentes == old(fuentes)
    {
      estado := estado.(estaConectada := false);
    }

    /** `onerror`: the error is only logged to the console; no state changes. */
    method OnError()
      ensures unchanged(this)
    {
    }

    /**
     * Plays a decoded buffer of `duracion` seconds with the output clock at `ahora`
     * (App.tsx:110-120): it starts at the later of the cursor and the clock, the cursor moves
     * to its end and the source joins the active set. It therefore starts after every active
     * source has finished, and right at `ahora` once the cursor has been reset.
     */
    method Schedule(ahora: real, duracion: real) returns (f: Fuente)
      requires Valid() && estado.estaHablando
      requires ahora >= 0.0 && duracion >= 0.0
      modifies this`nextStartTime, this`fuentes
      ensures Valid() && fresh(f)
      ensures f.iniciada && !f.detenida && f.duracion == duracion
      ensures f.inicio == Inicio(old(nextStartTime), ahora)
      ensures f.inicio >= ahora && f.inicio >= old(nextStartTime)
      ensures old(nextStartTime) == 0.0 ==> f.inicio == ahora
      ensures nextStartTime == f.Fin() && nextStartTime >= old(nextStartTime)
      ensures forall g :: g in old(fuentes) ==> g.Fin() <= f.inicio
      ensures fuentes == old(fuentes) + {f}
      ensures estado == old(estado) && transcripciones == old(transcripciones) && memoria == old(memoria)
    {
      f := new Fuente(duracion);
      nextStartTime := Inicio(nextStartTime, ahora);
      f.Start(nextStartTime);
      nextStartTime := nextStartTime + duracion;
      fuentes := fuentes + {f};
    }

    /**
     * `source.onended` (App.tsx:116-119): the source leaves the active set, and the avatar
     * stops speaking exactly when no source is left. A source that is not active (one already
     * cleared by an interruption) changes nothing but the flag.
     */
    method OnEnded(f: Fuente)
      requires Valid()
      modifies this`fuentes, this`estado
      ensures Valid()
      ensures fuentes == old(fuentes) - {f}
      ensures estado == if fuentes == {} then old(estado).(estaHablando := false) else old(estado)
      ensures nextStartTime == old(nextStartTime)
      ensures transcripciones == old(transcripciones) && memoria == old(memoria)
    {
      fuentes := fuentes - {f};
      if fuentes == {} {
        estado := estado.(estaHablando := false);
      }
    }

    /**
     * The interruption branch (App.tsx:134-139): every active source is stopped, the set is
     * emptied, the cursor goes back to 0 and the avatar stops speaking, whatever the state was.
     */
    method Interrupt()
      requires Valid()
      modifies this`fuentes, this`nextStartTime, this`estado, fuentes`detenida
      ensures Valid()
      ensures forall f :: f in old(fuentes) ==> f.detenida
      ensures fuentes == {} && nextStartTime == 0.0
      ensures estado == old(estado).(estaHablando := false)
      ensures transcripciones == old(transcripciones) && memoria == old(memoria)
    {
      var pendientes := fuentes;
      while pendientes != {}
        invariant pendientes <= fuentes
        invariant forall f :: f in fuentes && f !in pendientes ==> f.detenida
        modifies fuentes`detenida
        decreases pendientes
      {
        var s :| s in pendientes;
        s.Stop();
        pendientes := pendientes - {s};
      }
      fuentes := {};
      nextStartTime := 0.0;
      estado := estado.(estaHablando := false);
    }

    /**
     * The input-transcription branch of `onmessage` (App.tsx:122): the user's line is logged
     * and nothing else changes.
     */
    method Escuchar(texto: string, marca: int)
      requires Valid()
      modifies this`transcripciones
      ensures Valid()
      ensures transcripciones == Transcripcion.AgregarTranscripcion(old(transcripciones), texto, Usuario, marca)
    {
      transcripciones := Transcripcion.AgregarTranscripcion(transcripciones, texto, Usuario, marca);
    }

    /**
     * The output-transcription branch of `onmessage` (App.tsx:123-133): the avatar's line is
     * logged, classified into the current emotion, and may replace the memory.
     */
    method Responder(texto: string, marca: int)
      requires Valid()
      modifies this`transcripciones, this`estado, this`memoria
      ensures Valid()
      ensures transcripciones == Transcripcion.AgregarTranscripcion(old(transcripciones), texto, Azumi, marca)
      ensures estado == old(estado).(emocionActual := Emociones.AnalizarEmocion(texto))
      ensures memoria == Memoria.ActualizarMemoria(old(memoria), texto)
    {
      transcripciones := Transcripcion.AgregarTranscripcion(transcripciones, texto, Azumi, marca);
      estado := estado.(emocionActual := Emociones.AnalizarEmocion(texto));
      memoria := Memoria.ActualizarMemoria(memoria, texto);
    }

    /**
     * The transcription branches of `onmessage` (App.tsx:122-133): the user's line is logged
     * as in `Escuchar`, then the avatar's line is handled as in `Responder`. A user line never changes the
     * memory or the emotion.
     */
    method Transcribir(msg: Mensaje, marcaEntrada: int, marcaSalida: int)
      requires Valid()
      modifies this`transcripciones, this`estado, this`memoria
      ensures Valid()
      ensures transcripciones == RegistroTras(old(transcripciones), msg, marcaEntrada, marcaSalida)
      ensures memoria == (if msg.salida.Some? then Memoria.ActualizarMemoria(old(memoria), msg.salida.value)
                          else old(memoria))
      ensures estado == (if msg.salida.Some?
                         then old(estado).(emocionActual := Emociones.AnalizarEmocion(msg.salida.value))
                         else old(estado))
    {
      if msg.entrada.Some? {
        Escuchar(msg.entrada.value, marcaEntrada);
      }
      if msg.salida.Some? {
        Responder(msg.salida.value, marcaSalida);
      }
    }

    /**
     * The audio branch of `onmessage` (App.tsx:106-121): a non-empty payload marks the avatar
     * as speaking, then is decoded and scheduled. `decodificado` is the decoded buffer's
     * duration, or None when decoding throws; then nothing is scheduled.
     */
    method RecibirAudio(msg: Mensaje, ahora: real, decodificado: Option<real>) returns (nueva: Option<Fuente>)
      requires Valid() && ahora >= 0.0
      requires decodificado.Some? ==> decodificado.value >= 0.0
      modifies this`estado, this`nextStartTime, this`fuentes
      ensures Valid()
      ensures estado == if HayAudio(msg) then old(estado).(estaHablando := true) else old(estado)
      ensures nueva.Some? <==> HayAudio(msg) && decodificado.Some?
      ensures nueva.None? ==> fuentes == old(fuentes) && nextStartTime == old(nextStartTime)
      ensures nueva.Some? ==>
        && fresh(nueva.value) && nueva.value.duracion == decodificado.value
        && nueva.value.inicio == Inicio(old(nextStartTime), ahora)
        && (forall g :: g in old(fuentes) ==> g.Fin() <= nueva.value.inicio)
        && fuentes == old(fuentes) + {nueva.value}
        && nextStartTime == nueva.value.Fin()
    {
      nueva := None;
      if HayAudio(msg) {
        estado := estado.(estaHablando := true);
        if decodificado.Some? {
          var f := Schedule(ahora, decodificado.value);
          nueva := Some(f);
        }
      }
    }

    /**
     * The rest of `onmessage` once the audio payload is scheduled (App.tsx:122-139): the two
     * transcriptions, then the interruption flag.
     */
    method TrasAudio(msg: Mensaje, marcaEntrada: int, marcaSalida: int)
      requires Valid()
      modifies this`estado, this`transcripciones, this`memoria, this`nextStartTime, this`fuentes
      modifies fuentes`detenida
      ensures Valid()
      ensures transcripciones == RegistroTras(old(transcripciones), msg, marcaEntrada, marcaSalida)
      ensures memoria == (if msg.salida.Some? then Memoria.ActualizarMemoria(old(memoria), msg.salida.value)
                          else old(memoria))
      ensures estado.emocionActual == (if msg.salida.Some? then Emociones.AnalizarEmocion(msg.salida.value)
                                       else old(estado.emocionActual))
      ensures estado.estaConectada == old(estado.estaConectada)
      ensures estado.nivelConfianza == old(estado.nivelConfianza)
      ensures msg.interrumpido ==>
        && fuentes == {} && nextStartTime == 0.0 && !estado.estaHablando
        && (forall g :: g in old(fuentes) ==> g.detenida)
      ensures !msg.interrumpido ==>
        && fuentes == old(fuentes) && nextStartTime == old(nextStartTime)
        && estado.estaHablando == old(estado.estaHablando)
    {
      Transcribir(msg, marcaEntrada, marcaSalida);
      if msg.interrumpido {
        Interrupt();
      }
    }

    /**
     * `onmessage` (App.tsx:105-140), one message as one step: the audio payload, then the
     * input transcription, then the output transcription, then the interruption flag. A
     * payload that fails to decode aborts the rest of the message, leaving the speaking flag set.
     * `ahora` is the output clock when the buffer is scheduled, `decodificado` the decoded
     * buffer's duration (None when decoding throws), and the two marks the `Date.now()` of
     * the two transcript lines.
     */
    method OnMessage(msg: Mensaje, ahora: real, decodificado: Option<real>, marcaEntrada: int, marcaSalida: int)
      returns (nueva: Option<Fuente>)
      requires Valid() && ahora >= 0.0
      requires decodificado.Some? ==> decodificado.value >= 0.0
      modifies this`estado, this`transcripciones, this`memoria, this`nextStartTime, this`fuentes
      modifies fuentes`detenida
      ensures Valid()
      ensures nueva.Some? <==> HayAudio(msg) && decodificado.Some?
      ensures nueva.Some? ==>
        && fresh(nueva.value) && nueva.value.duracion == decodificado.value
        && nueva.value.inicio == Inicio(old(nextStartTime), ahora)
        && (forall g :: g in old(fuentes) ==> g.Fin() <= nueva.value.inicio)
      ensures Aborta(msg, decodificado) ==>
        && estado == old(estado).(estaHablando := true)
        && fuentes == old(fuentes) && nextStartTime == old(nextStartTime)
        && transcripciones == old(transcripciones) && memoria == old(memoria)
      ensures !Aborta(msg, decodificado) ==>
        && transcripciones == RegistroTras(old(transcripciones), msg, marcaEntrada, marcaSalida)
        && memoria == (if msg.salida.Some? then Memoria.ActualizarMemoria(old(memoria), msg.salida.value)
                       else old(memoria))
        && estado.emocionActual == (if msg.salida.Some? then Emociones.AnalizarEmocion(msg.salida.value)
                                    else old(estado.emocionActual))
        && estado.estaConectada == old(estado.estaConectada)
        && estado.nivelConfianza == old(estado.nivelConfianza)
      ensures !Aborta(msg, decodificado) && msg.interrumpido ==>
        && fuentes == {} && nextStartTime == 0.0 && !estado.estaHablando
        && (forall g :: g in old(fuentes) ==> g.detenida)
        && (nueva.Some? ==> nueva.value.detenida)
      ensures !Aborta(msg, decodificado) && !msg.interrumpido ==>
        && fuentes == old(fuentes) + (if nueva.Some? then {nueva.value} else {})
        && nextStartTime == (if nueva.Some? then nueva.value.Fin() else old(nextStartTime))
        && estado.estaHablando == (HayAudio(msg) || old(estado.estaHablando))
    {
      nueva := RecibirAudio(msg, ahora, decodificado);
      if Aborta(msg, decodificado) {
        return;
      }
      TrasAudio(msg, marcaEntrada, marcaSalida);
    }
  }
}
