/** The record and enum shapes of types.ts, and an Option wrapper. */
module Tipos {

  datatype Option<+T> = None | Some(value: T)

  /** The five expressions the avatar can show (types.ts:2-8). */
  datatype Emocion = NEUTRAL | FELIZ | TRISTE | ENOJADA | SORPRENDIDA

  /** Who spoke a transcribed line: the user ('usuario') or the avatar ('azumi'). */
  datatype Autor = Usuario | Azumi

  /** One line of the conversation log (types.ts:10-14); the timestamp is milliseconds since the epoch. */
  datatype MensajeTranscripcion = MensajeTranscripcion(texto: string, autor: Autor, timestamp: int)

  /** The assistant state the avatar view observes (types.ts:16-21). */
  datatype EstadoAsistente = EstadoAsistente(
    estaConectada: bool,
    estaHablando: bool,
    emocionActual: Emocion,
    nivelConfianza: int)

  /** The state the component starts with (App.tsx:14-19). */
  const EstadoInicial := EstadoAsistente(false, false, NEUTRAL, 100)
}
