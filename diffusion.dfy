/** The diffusion an engine is instantiated with. The engines are templates
    over the process; the two processes of this model are the alternatives
    of one sum type. */
module Diffusion1D {
  import DiffusionGBM
  import DiffusionOU

  datatype Diffusion = GBMProcess(gbm: DiffusionGBM.GBM) | OUProcess(ou: DiffusionOU.OU)

  ghost predicate Valid(d: Diffusion) {
    match d
    case GBMProcess(g) => DiffusionGBM.Valid(g)
    case OUProcess(o) => DiffusionOU.Valid(o)
  }

  function Mu(d: Diffusion, S: real, t: real): real {
    match d
    case GBMProcess(g) => DiffusionGBM.Mu(g, S, t)
    case OUProcess(o) => DiffusionOU.Mu(o, S, t)
  }

  function Sigma(d: Diffusion, S: real, t: real): real {
    match d
    case GBMProcess(g) => DiffusionGBM.Sigma(g, S, t)
    case OUProcess(o) => DiffusionOU.Sigma(o, S, t)
  }

  function GetS0(d: Diffusion): real {
    match d
    case GBMProcess(g) => DiffusionGBM.GetS0(g)
    case OUProcess(o) => DiffusionOU.GetS0(o)
  }
}
