/**
 * The two entities of the allocation problem, with the state they start in.
 * A student (Aluno) has an id, a score (nota) and a list of preferred
 * project ids; a project (Projeto) has an id, a number of seats (vMax) and
 * a minimum score (rMin). The allocation fields exist for the matching step
 * and are only initialised here.
 */
module Entities {

  class Aluno {
    var id: int
    var nota: int
    /** Project ids, most preferred first. */
    var preferencias: seq<int>
    /** The project currently holding this student; null while unallocated. */
    var projetoAlocado: Projeto?
    /** Index into preferencias of the next project to propose to. */
    var proximaPropostaIdx: nat

    constructor (id: int, nota: int, preferencias: seq<int>)
      ensures this.id == id && this.nota == nota && this.preferencias == preferencias
      ensures projetoAlocado == null && proximaPropostaIdx == 0
    {
      this.id := id;
      this.nota := nota;
      this.preferencias := preferencias;
      projetoAlocado := null;
      proximaPropostaIdx := 0;
    }
  }

  class Projeto {
    var id: int
    /** Maximum number of students. */
    var vMax: int
    /** Minimum score a student needs. */
    var rMin: int
    /** Students currently allocated here, in allocation order. */
    var alunosAlocados: seq<Aluno>

    constructor (id: int, vMax: int, rMin: int)
      ensures this.id == id && this.vMax == vMax && this.rMin == rMin
      ensures alunosAlocados == []
    {
      this.id := id;
      this.vMax := vMax;
      this.rMin := rMin;
      alunosAlocados := [];
    }
  }
}
