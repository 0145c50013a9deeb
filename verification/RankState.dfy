/** What the DRAM standards share: a rank's power states and the kinds of request (src/DDR3.h, src/SALP.h,
    src/Request.h). */
module RankState {

  datatype Power = PowerUp | ActPowerDown | PrePowerDown | SelfRefresh

  datatype Kind = Read | Write | Refresh | PowerDown | SelfRefreshEntry
}
