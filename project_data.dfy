/** The records of a project document that the core reads and rewrites: imported
    video clips with their labels ("rotulacoes") and the participants list. */
module ProjectData {
  import opened Text

  /** One label ("rotulo") of a clip. `participantId` is the `idParticipante` key:
      `None` stands both for an absent key and for JSON null. `payload` stands for
      the label's other keys, which the core never inspects. */
  datatype Label = Label(participantId: Option<string>, payload: string)

  /** One entry of `arquivosDeVideo`: `caminho`, `nome`, `duracao` (absent = `None`)
      and `rotulacoes` (absent = empty). */
  datatype Video = Video(path: string, name: string, duration: Option<real>, labels: seq<Label>)

  /** One entry of `participantes`. */
  datatype Participant = Participant(id: string, name: string)

  /** `vid.get("duracao", 0)`; a null duration is read as 0 as well. */
  function DurationOf(v: Video): real {
    match v.duration
    case Some(d) => d
    case None => 0.0
  }

  /** Sum of the durations of `vs`, first to last. */
  function SumDurations(vs: seq<Video>): real {
    if vs == [] then 0.0 else SumDurations(vs[..|vs| - 1]) + DurationOf(vs[|vs| - 1])
  }

  lemma {:induction false} SumDurationsAppend(a: seq<Video>, b: seq<Video>)
    ensures SumDurations(a + b) == SumDurations(a) + SumDurations(b)
  {
    if b == [] {
      assert a + b == a;
    } else {
      SumDurationsAppend(a, b[..|b| - 1]);
      assert (a + b)[..|a + b| - 1] == a + b[..|b| - 1];
    }
  }

  lemma {:induction false} SumDurationsNonNegative(vs: seq<Video>)
    requires forall i :: 0 <= i < |vs| ==> DurationOf(vs[i]) >= 0.0
    ensures SumDurations(vs) >= 0.0
  {
    if vs != [] {
      SumDurationsNonNegative(vs[..|vs| - 1]);
    }
  }
}
